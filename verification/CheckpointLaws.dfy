/**
 What the checkpoint protocol promises, over every run: how often a checkpoint is
 loaded and into which Pod, which chains the store holds, and what becomes of a
 suspended session. Where a promise does not hold, the exact condition under
 which it does, and a run in which it fails.
 */
module CheckpointLaws {
  import opened Checkpoint
  import opened Wrappers

  // ---------------------------------------------------------------------------
  // How often a checkpoint is loaded
  // ---------------------------------------------------------------------------

  /**
   In every run, with any stale view of the Sandbox, the loads of a reference are
   those of its aborted restores and, if it had one that loaded, that of the
   restore that consumed it. A load into the Pod that wrote the checkpoint has a
   status that recorded no UID.
   */
  lemma LoadsExact(p: Policy, ws: seq<World>, ss: seq<Step>, i: nat, r: Ref)
    requires Run(p, ws, ss) && Init(ws[0]) && i < |ws|
    ensures var log := ws[i].log;
            && LoadsOf(log.loads, r) == AbortsOf(log.aborted, r) + (if r in log.spent then 1 else 0)
            && forall l :: l in log.loads ==>
                 l.ref in log.recorded && (l.target == log.recorded[l.ref].writer ==> log.recorded[l.ref].uid == 0)
  {
    hide Run, LoadsOf, AbortsOf, ChainOk, SequenceOk, ViewsOk;
    InitInv(ws[0]);
    RunInv(p, ws, ss, i);
  }

  /** Some continuation of the run loads the reference once more. */
  ghost predicate LoadsAgain(p: Policy, w: World, r: Ref) {
    exists vs: seq<World>, ts: seq<Step> ::
      Run(p, vs, ts) && vs[0] == w && LoadsOf(vs[|ts|].log.loads, r) > LoadsOf(w.log.loads, r)
  }

  /**
   After a restore that loaded, the checkpoint can be loaded again exactly when
   the restore had to delete the Pod and could not.
   */
  lemma ReloadIff(p: Policy, w: World, s: Step)
    requires Inv(w) && s.Restore? && Enabled(p, w, s) && Loads(s.attempt)
    ensures LoadsAgain(p, Apply(p, w, s), s.view.ref) <==>
            s.removal == RemoveFailed && (s.attempt == GateRefused || (p.launcher && s.attempt != Restored))
  {
    hide Enabled, Apply, LoadsOf, Inv;
    var w' := Apply(p, w, s);
    if Aborts(p, s.attempt, s.removal) {
      AbortedRestoreRepeats(p, w, s);
      var w'' := Apply(p, w', s);
      OneStep(p, w', s);
      var vs, ts := [w', w''], [s];
      assert Run(p, vs, ts) && vs[0] == w' && vs[|ts|] == w'';
    } else {
      StepInv(p, w, s);
      RestoreConsumes(p, w, s);
      ConsumedIsFinal(p, w', s.view.ref);
    }
  }

  lemma ConsumedIsFinal(p: Policy, w: World, r: Ref)
    requires Inv(w) && r in w.log.consumed
    ensures !LoadsAgain(p, w, r)
  {
    hide Enabled, Apply, LoadsOf, Inv;
    forall vs: seq<World>, ts: seq<Step> | Run(p, vs, ts) && vs[0] == w
      ensures LoadsOf(vs[|ts|].log.loads, r) == LoadsOf(w.log.loads, r)
    {
      NeverAgain(p, vs, ts, |ts|, r);
    }
  }

  lemma OneStep(p: Policy, w: World, s: Step)
    requires Enabled(p, w, s)
    ensures Run(p, [w, Apply(p, w, s)], [s])
  {
    hide Enabled, Apply;
  }

  lemma RestoreConsumes(p: Policy, w: World, s: Step)
    requires s.Restore? && Enabled(p, w, s) && !Aborts(p, s.attempt, s.removal)
    ensures s.view.ref in Apply(p, w, s).log.consumed
  {
    hide DeleteChain, RecordRecovery;
  }

  /** A consumed checkpoint is never loaded again. */
  lemma {:induction false} NeverAgain(p: Policy, ws: seq<World>, ss: seq<Step>, i: nat, r: Ref)
    requires Run(p, ws, ss) && Inv(ws[0]) && r in ws[0].log.consumed && i < |ws|
    ensures r in ws[i].log.consumed && LoadsOf(ws[i].log.loads, r) == LoadsOf(ws[0].log.loads, r)
  {
    hide *;
    RunLength(p, ws, ss);
    if i > 0 {
      NeverAgain(p, ws, ss, i - 1, r);
      RunInv(p, ws, ss, i - 1);
      RunStep(p, ws, ss, i - 1);
      ConsumedStep(p, ws[i - 1], ss[i - 1], r);
    }
  }

  lemma ConsumedStep(p: Policy, w: World, s: Step, r: Ref)
    requires Inv(w) && Enabled(p, w, s) && r in w.log.consumed
    ensures var log := Apply(p, w, s).log;
            r in log.consumed && LoadsOf(log.loads, r) == LoadsOf(w.log.loads, r)
  {
    hide Apply, Enabled, LoadsOf;
    if s.Restore? {
      RestoreView(p, w, s);
      RestoreLog(p, w, s);
      LoadCount(w.log.loads, Load(s.view.ref, w.cache.value.uid), r);
    } else {
      LoadsKept(p, w, s);
    }
  }

  lemma RestoreLog(p: Policy, w: World, s: Step)
    requires s.Restore? && Enabled(p, w, s)
    ensures w.cache.Some? && w.log.consumed <= Apply(p, w, s).log.consumed
    ensures Apply(p, w, s).log.loads ==
              if Loads(s.attempt) then w.log.loads + [Load(s.view.ref, w.cache.value.uid)] else w.log.loads
  {
    hide DeleteChain, RecordRecovery;
  }

  /** Only a restore loads or consumes. */
  lemma LoadsKept(p: Policy, w: World, s: Step)
    requires Enabled(p, w, s) && !s.Restore?
    ensures Apply(p, w, s).log.loads == w.log.loads && Apply(p, w, s).log.consumed == w.log.consumed
  {
    hide DoTake, DoRestore, RecordRecovery;
    if s.Checkpoint? || s.Suspend? {
      TakeFrame(p, w, s.take);
    }
  }

  /** A restore that loads and cannot delete the Pod leaves everything in place, so the same restore can run again. */
  lemma AbortedRestoreRepeats(p: Policy, w: World, s: Step)
    requires s.Restore? && Enabled(p, w, s) && Aborts(p, s.attempt, s.removal) && Loads(s.attempt)
    ensures Enabled(p, Apply(p, w, s), s)
    ensures LoadsOf(Apply(p, w, s).log.loads, s.view.ref) == LoadsOf(w.log.loads, s.view.ref) + 1
    ensures LoadsOf(Apply(p, Apply(p, w, s), s).log.loads, s.view.ref) == LoadsOf(w.log.loads, s.view.ref) + 2
  {
    var l := Load(s.view.ref, w.cache.value.uid);
    LoadCount(w.log.loads, l, s.view.ref);
    LoadCount(w.log.loads + [l], l, s.view.ref);
    hide LoadsOf;
  }

  /** A refused Pod ends with the restore that refused it exactly when the Pod could be read and deleted. */
  lemma RefusedPodEnds(p: Policy, w: World, s: Step)
    requires s.Restore? && Enabled(p, w, s) && s.attempt == GateRefused && w.pod.Some? && !w.pod.value.deleting
    ensures var w' := Apply(p, w, s); w'.pod.Some? && (w'.pod.value.deleting <==> s.removal == Removed)
  {
    hide DeleteChain, RecordRecovery;
  }

  // ---------------------------------------------------------------------------
  // Chains
  // ---------------------------------------------------------------------------

  /** In every run the status names a good chain, and completed sequence numbers never repeat. */
  lemma ChainInvariant(p: Policy, ws: seq<World>, ss: seq<Step>, i: nat)
    requires Run(p, ws, ss) && Init(ws[0]) && i < |ws|
    ensures HasRef(ws[i]) ==> GoodChain(ws[i].store, ws[i].ck.value)
    ensures var taken := ws[i].log.taken; forall j, k :: 0 <= j < k < |taken| ==> taken[j] < taken[k]
    ensures CopyRecovery(ws[i].ck).count == ws[i].log.recoveries
  {
    hide Run, GoodChain, LoadsOk, ViewsOk;
    InitInv(ws[0]);
    RunInv(p, ws, ss, i);
  }

  /** The store after the deletes of the first n links. */
  function DeleteLinks(store: Store, links: seq<Ref>, n: nat, kept: set<Ref>): Store
    requires n <= |links|
  {
    map r | r in store && (r !in links[..n] || r == NoRef || r in kept) :: store[r]
  }

  /** The stores of a chain delete, one for each link. */
  function DeleteStores(store: Store, links: seq<Ref>, kept: set<Ref>): seq<Store> {
    seq(|links|, n requires 0 <= n < |links| => DeleteLinks(store, links, n + 1, kept))
  }

  /** Every store that a checkpoint passes through, from before it to its end. */
  function TakeStores(p: Policy, w: World, take: Take): seq<Store>
    requires w.cache.Some?
  {
    match take
    case TakeFailed(stored, uidRead) => if stored then [w.store, Saved(p, w, uidRead)] else [w.store]
    case Taken(uidRead, kept) =>
      var saved := Saved(p, w, uidRead);
      [w.store, saved] +
      if HasRef(w) && NewCkpt(p, w, uidRead).1.parents == [] then DeleteStores(saved, Links(w.ck.value), kept) else []
  }

  /** They begin with the store before the checkpoint and end with the one it leaves. */
  lemma TakeStoresEnds(p: Policy, w: World, take: Take)
    requires w.cache.Some?
    ensures var ts := TakeStores(p, w, take);
            ts != [] && ts[0] == w.store && ts[|ts| - 1] == DoTake(p, w, take).store
  {
    hide NewCkpt, TakesDiff;
    if take.Taken? && HasRef(w) && NewCkpt(p, w, take.uidRead).1.parents == [] {
      var links := Links(w.ck.value);
      assert links[..|links|] == links;
    }
  }

  /**
   At every point of a checkpoint, whether its RPC fails, fails but stores, or
   succeeds, and however the deletes of the old links end, the store holds a
   complete chain if it held one: the old one, or the one the status then names.
   */
  lemma NeverWithoutCheckpoint(p: Policy, w: World, take: Take, t: Store)
    requires Inv(w) && w.cache.Some? && HasRef(w) && t in TakeStores(p, w, take)
    ensures Complete(t, Links(w.ck.value)) || (take.Taken? && Complete(t, Links(DoTake(p, w, take).ck.value)))
    ensures take.TakeFailed? ==> Complete(t, Links(w.ck.value))
  {
    hide *;
    OldChainSaved(p, w, take.uidRead);
    match take
    case TakeFailed(stored, uidRead) => FailedStores(p, w, stored, uidRead, t);
    case Taken(uidRead, kept) =>
      if t != w.store && t != Saved(p, w, uidRead) {
        var n := TakenStores(p, w, uidRead, kept, t);
        NewChainStays(p, w, uidRead, n, kept);
      }
  }

  lemma FailedStores(p: Policy, w: World, stored: bool, uidRead: bool, t: Store)
    requires w.cache.Some? && t in TakeStores(p, w, TakeFailed(stored, uidRead))
    ensures t == w.store || t == Saved(p, w, uidRead)
  {
    hide Saved;
  }

  lemma TakenStores(p: Policy, w: World, uidRead: bool, kept: set<Ref>, t: Store) returns (n: nat)
    requires w.cache.Some? && t in TakeStores(p, w, Taken(uidRead, kept)) && t != w.store && t != Saved(p, w, uidRead)
    ensures HasRef(w) && n <= |Links(w.ck.value)| && NewCkpt(p, w, uidRead).1.parents == []
    ensures t == DeleteLinks(Saved(p, w, uidRead), Links(w.ck.value), n, kept)
    ensures DoTake(p, w, Taken(uidRead, kept)).ck == Some(NewCkpt(p, w, uidRead).1)
  {
    hide NewCkpt, Saved, DeleteLinks, Links, DeleteChain;
    var links := Links(w.ck.value);
    var ts := DeleteStores(Saved(p, w, uidRead), links, kept);
    var k :| 0 <= k < |ts| && ts[k] == t;
    n := k + 1;
  }

  lemma OldChainSaved(p: Policy, w: World, uidRead: bool)
    requires Inv(w) && w.cache.Some? && HasRef(w)
    ensures Complete(w.store, Links(w.ck.value)) && Complete(Saved(p, w, uidRead), Links(w.ck.value))
  {
    LinksBelow(w, w.ck.value.ref);
    hide TakesDiff, Increasing, OneWriter, SequenceOk, LoadsOk, ViewsOk, Links;
    assert Ref(Sequence(w) + 1) !in Links(w.ck.value);
    ChainSurvives(w.store, Saved(p, w, uidRead), Links(w.ck.value));
  }

  lemma NewChainStays(p: Policy, w: World, uidRead: bool, n: nat, kept: set<Ref>)
    requires Inv(w) && w.cache.Some? && HasRef(w) && n <= |Links(w.ck.value)| && NewCkpt(p, w, uidRead).1.parents == []
    ensures Complete(DeleteLinks(Saved(p, w, uidRead), Links(w.ck.value), n, kept), Links(NewCkpt(p, w, uidRead).1))
  {
    var ck := NewCkpt(p, w, uidRead).1;
    var saved := Saved(p, w, uidRead);
    var links := Links(w.ck.value);
    SavedChain(p, w, uidRead);
    LinksBelow(w, w.ck.value.ref);
    assert ck.ref !in links && Links(ck) == [ck.ref];
    hide TakesDiff, Increasing, OneWriter, NewCkpt, SequenceOk, LoadsOk, ViewsOk, Saved;
    ChainSurvives(saved, DeleteLinks(saved, links, n, kept), Links(ck));
  }

  /** The store holds the chain of the status and nothing else. */
  ghost predicate Tidy(w: World) {
    forall r :: r in w.store <==> HasRef(w) && r in Links(w.ck.value)
  }

  predicate CleanTake(take: Take) {
    match take
    case TakeFailed(stored, _) => !stored
    case Taken(_, kept) => kept == {}
  }

  /** Every delete of the step succeeds and no failed checkpoint is left behind. */
  predicate Clean(s: Step) {
    match s
    case Checkpoint(take) => CleanTake(take)
    case Suspend(_, take, _) => CleanTake(take)
    case Restore(_, _, _, kept) => kept == {}
    case _ => true
  }

  lemma LinksOf(ck: Ckpt)
    ensures forall r :: r in Links(ck) <==> r in ck.parents || r == ck.ref
  {
  }

  lemma TakeTidy(p: Policy, w: World, take: Take)
    requires Inv(w) && Tidy(w) && w.cache.Some? && CleanTake(take)
    ensures Tidy(DoTake(p, w, take))
  {
    hide Inv, Links;
    if take.Taken? {
      if HasRef(w) {
        LinksBelow(w, w.ck.value.ref);
        LinksOf(w.ck.value);
      }
      var w', ck := DoTake(p, w, take), NewCkpt(p, w, take.uidRead).1;
      if HasRef(w) {
        assert NoRef !in Links(w.ck.value) && ck.ref !in Links(w.ck.value);
      }
      LinksOf(ck);
      assert TakesDiff(p, w.ck, if take.uidRead then w.cache.value.uid else 0) ==> w.ck.value.ref in ck.parents;
    }
  }

  lemma RestoreTidy(p: Policy, w: World, s: Step)
    requires Inv(w) && Tidy(w) && s.Restore? && Enabled(p, w, s) && s.kept == {}
    ensures Tidy(DoRestore(p, w, s.view, s.attempt, s.removal, s.kept))
  {
    RestoreView(p, w, s);
    LinksBelow(w, w.ck.value.ref);
    hide Inv, Enabled, DeletesPod, Links, RecordRecovery;
    assert NoRef !in Links(w.ck.value);
  }

  lemma SuspendTidy(p: Policy, w: World, why: Reason, take: Take, podWrite: PodWrite)
    requires Inv(w) && Tidy(w) && w.cache.Some? && CleanTake(take)
    ensures Tidy(DoSuspend(p, w, why, take, podWrite))
  {
    hide Inv, DoTake, Tidy, Links;
    var w1 := DoTake(p, w, take);
    TakeTidy(p, w, take);
    TidyFrame(w1, DoSuspend(p, w, why, take, podWrite));
  }

  lemma SameLinks(a: Ckpt, b: Ckpt)
    requires a.ref == b.ref && a.parents == b.parents
    ensures Links(a) == Links(b)
  {
  }

  lemma TidyFrame(w: World, w': World)
    requires Tidy(w) && w'.store == w.store && HasRef(w') == HasRef(w)
    requires HasRef(w) ==> w'.ck.value.ref == w.ck.value.ref && w'.ck.value.parents == w.ck.value.parents
    ensures Tidy(w')
  {
    if HasRef(w) {
      SameLinks(w.ck.value, w'.ck.value);
    }
    hide Links;
  }

  /** A step whose cleanup succeeds leaves exactly the chain that the status names. */
  lemma TidyStep(p: Policy, w: World, s: Step)
    requires Inv(w) && Tidy(w) && Enabled(p, w, s) && Clean(s)
    ensures Tidy(Apply(p, w, s))
  {
    hide Inv, Tidy, Links, DoTake, DoSuspend, DoRestore, DoMissing, DoLoseNode, DoRestartExited;
    match s
    case Checkpoint(take) => TakeTidy(p, w, take);
    case Suspend(why, take, podWrite) => SuspendTidy(p, w, why, take, podWrite);
    case Restore(_, _, _, _) => RestoreTidy(p, w, s);
    case _ =>
      ChainKept(p, w, s);
      TidyFrame(w, Apply(p, w, s));
  }

  /** The other steps leave the store and the chain of the status alone. */
  lemma ChainKept(p: Policy, w: World, s: Step)
    requires Enabled(p, w, s) && !s.Checkpoint? && !s.Suspend? && !s.Restore?
    ensures var w' := Apply(p, w, s);
            && w'.store == w.store && HasRef(w') == HasRef(w)
            && (HasRef(w) ==> w'.ck.value.ref == w.ck.value.ref && w'.ck.value.parents == w.ck.value.parents)
  {
    hide DoTake, DoSuspend, DoRestore, RecordRecovery;
  }

  lemma {:induction false} TidyRun(p: Policy, ws: seq<World>, ss: seq<Step>, i: nat)
    requires Run(p, ws, ss) && Init(ws[0]) && i < |ws| && forall j :: 0 <= j < i ==> Clean(ss[j])
    ensures Tidy(ws[i])
  {
    if i > 0 {
      hide *;
      RunLength(p, ws, ss);
      TidyRun(p, ws, ss, i - 1);
      InitInv(ws[0]);
      RunInv(p, ws, ss, i - 1);
      RunStep(p, ws, ss, i - 1);
      TidyStep(p, ws[i - 1], ss[i - 1]);
    }
  }

  // ---------------------------------------------------------------------------
  // Suspended sessions
  // ---------------------------------------------------------------------------

  /** Suspended, the Pod gone or ending, and no reason to resume. The cache may not show it yet. */
  predicate Resting(w: World) {
    !w.gone && w.phase == Suspended && Ending(w.pod) && !Resumes(w)
  }

  /** The cache shows it, too. */
  predicate Held(w: World) {
    Resting(w) && Ending(w.cache)
  }

  /**
   A user, idle or pause-timeout suspend either stops before its status patch
   and leaves the phase alone, or leaves the checkpoint it just took pending,
   with a complete chain in the store and the Pod ending.
   */
  lemma SuspendParks(p: Policy, w: World, why: Reason, take: Take, podWrite: PodWrite)
    requires Inv(w) && w.cache.Some? && why != CheckpointOnDrain
    ensures var w' := DoSuspend(p, w, why, take, podWrite);
            if take.Taken? && (w.cache.value.deleting || podWrite == PodDone) then
              && w'.phase == Suspended && w'.reason == why && w'.since == w.now && Ending(w'.pod)
              && Parked(w', Ref(NextSequence(w.ck))) && Complete(w'.store, Links(w'.ck.value))
              && w'.ck.value.podUid == if take.uidRead then w.cache.value.uid else 0
            else
              w'.phase == w.phase
  {
    hide Inv, DoTake, Complete, Links;
    SuspendInv(p, w, why, take, podWrite);
    LiveChain(DoSuspend(p, w, why, take, podWrite));
    TakeFrame(p, w, take);
    CachedEnding(w);
    if take.Taken? {
      TakenParks(p, w, take.uidRead, take.kept);
    }
  }

  lemma LiveChain(w: World)
    requires Inv(w)
    ensures HasRef(w) ==> Complete(w.store, Links(w.ck.value))
  {
  }

  lemma CachedEnding(w: World)
    requires Inv(w) && w.cache.Some?
    ensures w.cache.value.deleting ==> Ending(w.pod)
  {
  }

  /** The checkpoint of the last Pod is pending. */
  predicate Parked(w: World, ref: Ref) {
    && HasRef(w) && w.ck.value.ref == ref && w.ck.value.pending
    && ref in w.log.recorded && w.log.recorded[ref].writer + 1 == w.nextUid
  }

  lemma TakenParks(p: Policy, w: World, uidRead: bool, kept: set<Ref>)
    requires Inv(w) && w.cache.Some?
    ensures var w' := DoTake(p, w, Taken(uidRead, kept));
            && w'.ck.Some? && w'.ck.value.ref == Ref(NextSequence(w.ck))
            && w'.ck.value.ref in w'.log.recorded && w'.log.recorded[w'.ck.value.ref].writer + 1 == w'.nextUid
            && w'.ck.value.podUid == if uidRead then w.cache.value.uid else 0
  {
    hide DeleteChain, ChainOk, SequenceOk, LoadsOk, ViewsOk, Links;
  }

  /** A drain leaves the last checkpoint pending exactly when it is fresh, or is there and the session is durable. */
  lemma DrainParks(p: Policy, w: World, take: Take)
    requires w.cache.Some?
    ensures var w' := DoSuspend(p, w, CheckpointOnDrain, take, PodDone);
            && w'.phase == Suspended && w'.ck.Some?
            && (w'.ck.value.pending <==> take.Taken? || (p.durable && HasRef(w)))
  {
    hide TakesDiff, DeleteChain, Links;
  }

  /**
   Of all steps only a status derivation takes a resting session out of its
   suspend before it has a reason to resume; and that is enabled exactly while
   the cache still shows its Pod without mark and deletion.
   */
  lemma FlipsIff(p: Policy, w: World)
    requires Resting(w)
    ensures (exists s :: Enabled(p, w, s) && Apply(p, w, s).phase != Suspended) <==> !Ending(w.cache)
  {
    hide DoTake, DoRestore, DoSuspend, DoRestartExited, DoMissing, DoLoseNode;
    if !Ending(w.cache) {
      var s := Derive(Running, NoReason);
      assert Enabled(p, w, s) && Apply(p, w, s).phase != Suspended;
    }
    forall s | Enabled(p, w, s) ensures Apply(p, w, s).phase != Suspended <==> s.Derive? {
      RestingStep(p, w, s);
    }
  }

  /** Every other step leaves it at rest, without a new Pod, or recycles it once its time is over. */
  lemma RestingStep(p: Policy, w: World, s: Step)
    requires Resting(w) && Enabled(p, w, s)
    ensures var w' := Apply(p, w, s);
            && (w'.phase != Suspended <==> s.Derive?)
            && (!s.Derive? ==>
                  && w'.log.created == w.log.created && w'.since == w.since && w'.reason == w.reason
                  && (w'.gone ==> w.since + p.ttl <= w.now == w'.now)
                  && (!w'.gone && !Resumes(w') ==> Resting(w')))
  {
    hide DoTake, DoSuspend, DoRestore, DoRestartExited, DoMissing, DoLoseNode;
    match s
    case Restore(view, attempt, removal, kept) => RestoreFrame(p, w, view, attempt, removal, kept);
    case RestartExited(podDeleted) => RestartFrame(w, podDeleted);
    case LoseNode(podDeleted) => LoseFrame(w, podDeleted);
    case Missing(podCreated) => MissingFrame(p, w, podCreated);
    case _ =>
  }

  /** The parts of the state that decide whether a session rests. */
  predicate SameRest(w: World, w': World) {
    && w'.log.created == w.log.created && w'.gone == w.gone && w'.now == w.now
    && w'.phase == w.phase && w'.reason == w.reason && w'.since == w.since
    && w'.desired == w.desired && w'.activity == w.activity && w'.cache == w.cache
    && (Ending(w.pod) ==> Ending(w'.pod))
  }

  lemma RestoreFrame(p: Policy, w: World, view: Ckpt, attempt: Attempt, removal: Removal, kept: set<Ref>)
    requires w.cache.Some?
    ensures SameRest(w, DoRestore(p, w, view, attempt, removal, kept))
  {
    hide DeleteChain, RecordRecovery;
  }

  lemma RestartFrame(w: World, podDeleted: bool)
    ensures SameRest(w, DoRestartExited(w, podDeleted))
  {
    hide RecordRecovery;
  }

  lemma LoseFrame(w: World, podDeleted: bool)
    ensures SameRest(w, DoLoseNode(w, podDeleted))
  {
  }

  lemma MissingFrame(p: Policy, w: World, podCreated: bool)
    requires Resting(w)
    ensures var w' := DoMissing(p, w, podCreated);
            (w' == w && w.now < w.since + p.ttl) || (w' == w.(gone := true) && w.since + p.ttl <= w.now)
  {
  }

  /**
   Over any stretch of a run without a reason to resume, a resting session stays
   suspended exactly when no status is derived for it; then it gets no Pod, and
   is recycled no earlier than its time.
   */
  lemma {:induction false} RestingRun(p: Policy, ws: seq<World>, ss: seq<Step>, i: nat, j: nat)
    requires Run(p, ws, ss) && i <= j < |ws| && Resting(ws[i])
    requires forall k :: i <= k <= j && !ws[k].gone && ws[k].phase == Suspended ==> !Resumes(ws[k])
    ensures (forall k :: i <= k <= j ==> ws[k].phase == Suspended) <==> (forall k :: i <= k < j ==> !ss[k].Derive?)
    ensures (forall k :: i <= k < j ==> !ss[k].Derive?) ==>
              && ws[j].log.created == ws[i].log.created && ws[j].since == ws[i].since
              && if ws[j].gone then ws[i].since + p.ttl <= ws[j].now else Resting(ws[j])
    decreases j
  {
    hide *;
    RunLength(p, ws, ss);
    RestMeans(ws[i]);
    if i < j {
      RestingRun(p, ws, ss, i, j - 1);
      var w, s := ws[j - 1], ss[j - 1];
      RunStep(p, ws, ss, j - 1);
      GoneStops(p, w, s);
      if forall k :: i <= k < j - 1 ==> !ss[k].Derive? {
        RestingStep(p, w, s);
        if !s.Derive? && !ws[j].gone {
          RestMeans(ws[j]);
        }
      }
    }
  }

  lemma RestMeans(w: World)
    ensures Resting(w) ==> !w.gone && w.phase == Suspended
  {
  }

  lemma GoneStops(p: Policy, w: World, s: Step)
    ensures w.gone ==> !Enabled(p, w, s)
  {
  }

  /** Once the cache shows the end of the Pod, no status is derived and no checkpoint step is taken. */
  lemma HeldStep(p: Policy, w: World, s: Step)
    requires Held(w) && Enabled(p, w, s)
    ensures !s.Derive? && !s.Restore? && !s.Checkpoint? && !s.Suspend? && !s.LoseNode? && !s.RestartExited?
    ensures var w' := Apply(p, w, s);
            && w'.log.created == w.log.created && w'.since == w.since
            && (w'.gone ==> w.since + p.ttl <= w.now == w'.now)
            && (!w'.gone && !Resumes(w') ==> Held(w'))
  {
    RestingStep(p, w, s);
    hide DoTake, DoSuspend, DoRestore, DoRestartExited, DoLoseNode;
  }

  /** So from then on it stays suspended, with no Pod, until it resumes or is recycled. */
  lemma {:induction false} HeldRun(p: Policy, ws: seq<World>, ss: seq<Step>, i: nat, j: nat)
    requires Run(p, ws, ss) && i <= j < |ws| && Held(ws[i])
    requires forall k :: i <= k <= j && !ws[k].gone ==> !Resumes(ws[k])
    ensures ws[j].log.created == ws[i].log.created && ws[j].since == ws[i].since
    ensures if ws[j].gone then ws[i].since + p.ttl <= ws[j].now else Held(ws[j])
    decreases j
  {
    hide *;
    RunLength(p, ws, ss);
    HeldMeans(ws[i]);
    if i < j {
      HeldRun(p, ws, ss, i, j - 1);
      var w, s := ws[j - 1], ss[j - 1];
      RunStep(p, ws, ss, j - 1);
      GoneStops(p, w, s);
      HeldStep(p, w, s);
    }
  }

  lemma HeldMeans(w: World)
    requires Held(w)
    ensures !w.gone
  {
  }

  /**
   Before it has a reason to resume, the parked checkpoint of a resting session
   can be restored exactly while the cache still shows its Pod running and the
   status recorded no UID; and that restore loads it into the Pod that wrote it.
   */
  lemma RestorableIff(p: Policy, w: World, ref: Ref)
    requires Inv(w) && Resting(w) && Parked(w, ref)
    ensures (exists s: Step :: s.Restore? && Enabled(p, w, s)) <==> Exposed(w)
    ensures Exposed(w) ==> w.cache.value.uid == w.log.recorded[ref].writer
  {
    hide ChainOk, SequenceOk;
    if Exposed(w) {
      assert Enabled(p, w, Restore(w.ck.value, Restored, Removed, {}));
    }
    forall s: Step | s.Restore? && Enabled(p, w, s) ensures Exposed(w) {
      RestoreView(p, w, s);
    }
  }

  predicate Exposed(w: World) {
    CacheUp(w) && w.ck.Some? && w.ck.value.podUid == 0
  }

  /** Any other step leaves the parked checkpoint pending. */
  lemma ParkedStep(p: Policy, w: World, s: Step, ref: Ref)
    requires Resting(w) && Parked(w, ref) && Enabled(p, w, s) && !s.Restore?
    ensures var w' := Apply(p, w, s); Parked(w', ref) && w'.ck.value.podUid == w.ck.value.podUid
  {
    hide DoTake, DoSuspend, DoRestore, RecordRecovery;
  }

  /** Over any stretch at rest in which it is never exposed, as with its UID recorded, the checkpoint stays pending. */
  lemma {:induction false} ParkedRun(p: Policy, ws: seq<World>, ss: seq<Step>, i: nat, j: nat, ref: Ref)
    requires Run(p, ws, ss) && Init(ws[0]) && i <= j < |ws| && Parked(ws[i], ref)
    requires forall k :: i <= k < j ==> Resting(ws[k]) && !(ws[i].ck.value.podUid == 0 && Exposed(ws[k]))
    ensures Parked(ws[j], ref) && ws[j].ck.value.podUid == ws[i].ck.value.podUid
    decreases j
  {
    hide *;
    RunLength(p, ws, ss);
    ParkedMeans(ws[i], ref);
    if i < j {
      ParkedRun(p, ws, ss, i, j - 1, ref);
      var w, s := ws[j - 1], ss[j - 1];
      RunStep(p, ws, ss, j - 1);
      InitInv(ws[0]);
      RunInv(p, ws, ss, j - 1);
      RestorableIff(p, w, ref);
      ParkedMeans(w, ref);
      ExposedMeans(w);
      ParkedStep(p, w, s, ref);
    }
  }

  lemma ParkedMeans(w: World, ref: Ref)
    requires Parked(w, ref)
    ensures w.ck.Some?
  {
  }

  lemma ExposedMeans(w: World)
    ensures Exposed(w) ==> w.ck.Some? && w.ck.value.podUid == 0
  {
  }

  // ---------------------------------------------------------------------------
  // Runs in which a promise fails
  // ---------------------------------------------------------------------------

  lemma Push(p: Policy, ws: seq<World>, ss: seq<Step>, s: Step) returns (vs: seq<World>, ts: seq<Step>)
    requires Run(p, ws, ss) && Enabled(p, ws[|ss|], s)
    ensures Run(p, vs, ts) && |vs| == |ts| + 1 && vs[0] == ws[0] && ts == ss + [s] && vs[|ts|] == Apply(p, ws[|ss|], s)
  {
    hide Enabled, Apply;
    vs, ts := ws + [Apply(p, ws[|ss|], s)], ss + [s];
  }

  const PLAIN := Policy(false, false, 0)

  /** Makes a Pod and sees it run. */
  lemma BringUp(ws: seq<World>, ss: seq<Step>) returns (vs: seq<World>, ts: seq<Step>)
    requires Run(PLAIN, ws, ss)
    requires var w := ws[|ss|];
             !w.gone && w.pod.None? && w.cache.None? && !Terminal(w.phase) && (w.phase == Suspended ==> Resumes(w))
    ensures Run(PLAIN, vs, ts) && |vs| == |ts| + 1 && vs[0] == ws[0]
    ensures ts == ss + [Missing(true), Boot, Sync, Derive(Running, NoReason)]
    ensures var w, w' := ws[|ss|], vs[|ts|];
            && w'.pod == w'.cache == Some(Pod(w.nextUid, false, false, Up)) && w'.nextUid == w.nextUid + 1
            && w'.phase == Running && !w'.gone && w'.desired == w.desired && w'.ck == MarkPending(w).ck
            && w'.log.loads == w.log.loads && w'.log.created == w.log.created + 1 && w'.log.recorded == w.log.recorded
            && w'.log.views == MarkPending(w).log.views
  {
    hide Run, DoTake, DoSuspend, DoRestore, DoRestartExited, DoLoseNode;
    vs, ts := Push(PLAIN, ws, ss, Missing(true));
    vs, ts := Push(PLAIN, vs, ts, Boot);
    vs, ts := Push(PLAIN, vs, ts, Sync);
    vs, ts := Push(PLAIN, vs, ts, Derive(Running, NoReason));
  }

  /** The first Pod of a session, and its suspend on request, before the cache moves. */
  lemma SuspendFirst(w0: World, uidRead: bool) returns (ws: seq<World>, ss: seq<Step>)
    requires Init(w0) && w0.desired == DesiredSuspended
    ensures Run(PLAIN, ws, ss) && |ws| == |ss| + 1 && ws[0] == w0 && forall s :: s in ss ==> !s.SetDesired?
    ensures var w := ws[|ss|];
            && Resting(w) && w.reason == UserSuspended && w.desired == DesiredSuspended && w.nextUid == 2
            && w.pod == Some(Pod(1, true, true, Up)) && w.cache == Some(Pod(1, false, false, Up))
            && Parked(w, Ref(1)) && w.ck.value.podUid == (if uidRead then 1 else 0) && w.ck in w.log.views
            && w.log.loads == [] && w.log.created == 1 && w.log.recorded[Ref(1)].writer == 1
  {
    hide Run, DoRestore, DoRestartExited, DoLoseNode;
    Begin(w0);
    ws, ss := BringUp([w0], []);
    var w := ws[|ss|];
    var s := Suspend(UserSuspended, Taken(uidRead, {}), PodDone);
    ws, ss := Push(PLAIN, ws, ss, s);
    SuspendLook(w, uidRead);
  }

  lemma Begin(w: World)
    ensures Run(PLAIN, [w], [])
  {
  }

  lemma SuspendLook(w: World, uidRead: bool)
    requires w.pod == w.cache == Some(Pod(1, false, false, Up)) && w.nextUid == 2 && w.ck == None && !w.gone
    requires w.desired == DesiredSuspended && w.phase == Running
    ensures var w' := DoSuspend(PLAIN, w, UserSuspended, Taken(uidRead, {}), PodDone);
            && Resting(w') && w'.reason == UserSuspended && w'.desired == w.desired && w'.nextUid == 2
            && w'.pod == Some(Pod(1, true, true, Up)) && w'.cache == w.cache
            && Parked(w', Ref(1)) && w'.ck.value.podUid == (if uidRead then 1 else 0) && w'.ck in w'.log.views
            && w'.log.loads == w.log.loads && w'.log.created == w.log.created && w'.log.recorded[Ref(1)].writer == 1
  {
    hide DeleteChain;
    var w' := DoSuspend(PLAIN, w, UserSuspended, Taken(uidRead, {}), PodDone);
    assert w'.log.views[|w'.log.views| - 1] == w'.ck;
  }

  /** While the cache lags, a session that is asked to stay suspended gets a second Pod. */
  lemma FlippedInstance(w0: World) returns (ws: seq<World>, ss: seq<Step>)
    requires Init(w0) && w0.desired == DesiredSuspended
    ensures Run(PLAIN, ws, ss) && ws[0] == w0 && (forall s :: s in ss ==> !s.SetDesired?)
    ensures ws[|ss|].desired == DesiredSuspended && ws[|ss|].log.created == 2
  {
    hide Run, DoRestore, DoRestartExited, DoLoseNode, Parked;
    ws, ss := SuspendFirst(w0, true);
    ws, ss := Push(PLAIN, ws, ss, Derive(Running, NoReason));
    ws, ss := Push(PLAIN, ws, ss, Suspend(UserSuspended, TakeFailed(false, true), PodDone));
    ws, ss := Push(PLAIN, ws, ss, Vanish);
    ws, ss := Push(PLAIN, ws, ss, Sync);
    ws, ss := Push(PLAIN, ws, ss, Missing(true));
  }

  /** When the UID could not be read, the lagging cache lets a checkpoint be loaded into the Pod that wrote it. */
  lemma WriterLoadInstance(w0: World) returns (ws: seq<World>, ss: seq<Step>)
    requires Init(w0) && w0.desired == DesiredSuspended
    ensures Run(PLAIN, ws, ss) && ws[0] == w0
    ensures var log := ws[|ss|].log;
            log.loads == [Load(Ref(1), 1)] && Ref(1) in log.recorded && log.recorded[Ref(1)].writer == 1
  {
    hide Run, DoTake, DoSuspend, DoRestore, DoMissing, DoRestartExited, DoLoseNode;
    ws, ss := SuspendFirst(w0, false);
    ws, ss := Push(PLAIN, ws, ss, Derive(Running, NoReason));
    var w := ws[|ss|];
    var s := Restore(w.ck.value, Restored, Removed, {});
    ws, ss := Push(PLAIN, ws, ss, s);
    RestoreLook(w, s.view);
  }

  lemma RestoreLook(w: World, view: Ckpt)
    requires w.cache.Some?
    ensures var w' := DoRestore(PLAIN, w, view, Restored, Removed, {});
            w'.log.loads == w.log.loads + [Load(view.ref, w.cache.value.uid)] && w'.log.recorded == w.log.recorded
  {
    hide DeleteChain, RecordRecovery;
  }

  /** A checkpoint is loaded twice, because the delete of the Pod that the gate refused failed. */
  lemma DoubleLoadInstance(w0: World) returns (ws: seq<World>, ss: seq<Step>)
    requires Init(w0) && w0.desired == DesiredSuspended
    ensures Run(PLAIN, ws, ss) && ws[0] == w0
    ensures LoadsOf(ws[|ss|].log.loads, Ref(1)) == 2
  {
    hide Run, LoadsOf, DoTake, DoSuspend, DoRestore, DoMissing, DoRestartExited, DoLoseNode;
    ws, ss := SuspendFirst(w0, true);
    ws, ss := Push(PLAIN, ws, ss, Vanish);
    ws, ss := Push(PLAIN, ws, ss, Sync);
    ws, ss := Push(PLAIN, ws, ss, SetDesired(DesiredRunning));
    ws, ss := BringUp(ws, ss);
    var w := ws[|ss|];
    var s := Restore(w.ck.value, GateRefused, RemoveFailed, {});
    AbortedRestoreRepeats(PLAIN, w, s);
    NoLoads(Ref(1));
    ws, ss := Push(PLAIN, ws, ss, s);
    ws, ss := Push(PLAIN, ws, ss, s);
  }

  lemma NoLoads(r: Ref)
    ensures LoadsOf([], r) == 0
  {
  }
}
