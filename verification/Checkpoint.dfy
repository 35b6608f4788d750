/**
 The session checkpoint protocol of internal/controller/session_checkpoint.go
 and its callers in sandbox_controller.go, as a step machine over the Sandbox
 status, its Pod and the checkpoint store.
 */
module Checkpoint {
  import opened Wrappers

  /** The UID of a Pod. Pods get increasing UIDs; 0 is the empty string. */
  type Uid = nat

  /** A storage reference. References are injective in the sequence number. */
  datatype Ref = NoRef | Ref(sequence: nat)

  datatype Kind = ResumedFromCheckpoint | RestartedFromWorkspace

  /** The record of the last recovery of a session. */
  datatype Recovery = Recovery(last: Option<Kind>, at: Option<int>, stateTakenAt: Option<int>, count: nat)

  /** The checkpoint status of a Sandbox. */
  datatype Ckpt = Ckpt(ref: Ref, sequence: nat, podUid: Uid, parents: seq<Ref>, pending: bool,
                       takenAt: Option<int>, recovery: Recovery)

  /** A stored checkpoint: the checkpoint it is a diff on, if any, and the Pod that wrote it. */
  datatype Object = Object(parent: Ref, writer: Uid)

  type Store = map<Ref, Object>

  datatype Phase = Pending | Running | Paused | Suspended | Completed | Failed

  datatype Reason = NoReason | UserSuspended | SuspendedIdle | SuspendedPauseTimeout | CheckpointOnDrain

  datatype Desired = DesiredUnset | DesiredRunning | DesiredPaused | DesiredSuspended

  datatype Stage = Starting | Up | Ended

  /** The Pod: condemned carries the suspend mark, deleting has a deletion time. */
  datatype Pod = Pod(uid: Uid, condemned: bool, deleting: bool, stage: Stage)

  /** One call to load a checkpoint into a Pod. */
  datatype Load = Load(ref: Ref, target: Uid)

  /** The Pod that wrote a checkpoint, and the UID its status recorded: the writer's, or none. */
  datatype Record = Record(writer: Uid, uid: Uid)

  /** What happened so far. */
  datatype Log = Log(
    taken: seq<nat>,             // sequence numbers of completed checkpoints
    recorded: map<Ref, Record>,  // the writer of each completed checkpoint
    views: seq<Option<Ckpt>>,    // every checkpoint status ever written
    loads: seq<Load>,
    consumed: set<Ref>,          // references whose restore ran to its status patch
    spent: set<Ref>,             // those of them whose last restore loaded
    aborted: seq<Ref>,           // loading restores that returned early because the Pod delete failed
    created: nat,                // Pods created
    recoveries: nat)             // recoveries recorded

  /** The live objects, and the cached Pod that the reconciler reads. */
  datatype World = World(
    ck: Option<Ckpt>, phase: Phase, reason: Reason, since: int, desired: Desired, activity: int,
    pod: Option<Pod>, cache: Option<Pod>,
    nextUid: Uid,  // the UID of the next Pod
    now: int, gone: bool, store: Store, log: Log)

  datatype Policy = Policy(durable: bool, launcher: bool, ttl: int)

  const MAX_DIFF_CHAIN := 8

  // ---------------------------------------------------------------------------
  // Recovery records
  // ---------------------------------------------------------------------------

  const NO_RECOVERY := Recovery(None, None, None, 0)

  const EMPTY_CKPT := Ckpt(NoRef, 0, 0, [], false, None, NO_RECOVERY)

  function RecordRecovery(r: Recovery, kind: Kind, at: int, stateTakenAt: Option<int>): Recovery {
    Recovery(Some(kind), Some(at), if kind == ResumedFromCheckpoint then stateTakenAt else None, r.count + 1)
  }

  function CopyRecovery(prev: Option<Ckpt>): Recovery {
    if prev.None? then NO_RECOVERY else prev.value.recovery
  }

  // ---------------------------------------------------------------------------
  // Chains in the store
  // ---------------------------------------------------------------------------

  /** The chain a status names: the parents, then the checkpoint. */
  function Links(ck: Ckpt): seq<Ref> {
    ck.parents + [ck.ref]
  }

  /** The chain starts with a full checkpoint and each later link is a diff on the one before it. */
  predicate Complete(store: Store, links: seq<Ref>) {
    && links != []
    && (forall i :: 0 <= i < |links| ==> links[i].Ref? && links[i] in store)
    && store[links[0]].parent == NoRef
    && (forall i :: 0 < i < |links| ==> store[links[i]].parent == links[i - 1])
  }

  predicate Increasing(links: seq<Ref>) {
    forall i, j :: 0 <= i < j < |links| && links[i].Ref? && links[j].Ref? ==> links[i].sequence < links[j].sequence
  }

  predicate OneWriter(store: Store, links: seq<Ref>, writer: Uid) {
    forall i :: 0 <= i < |links| && links[i] in store ==> store[links[i]].writer == writer
  }

  /** Deletes the links of a chain, except the ones whose delete fails. */
  function DeleteChain(store: Store, ck: Ckpt, kept: set<Ref>): Store {
    map r | r in store && (r !in Links(ck) || r == NoRef || r in kept) :: store[r]
  }

  // ---------------------------------------------------------------------------
  // Decisions
  // ---------------------------------------------------------------------------

  function NextSequence(prev: Option<Ckpt>): nat {
    if prev.None? then 1 else prev.value.sequence + 1
  }

  /** A durable launcher session takes a diff when the same machine wrote the last checkpoint and the chain is short. */
  predicate TakesDiff(p: Policy, prev: Option<Ckpt>, uid: Uid) {
    && p.durable && p.launcher && prev.Some? && prev.value.ref != NoRef
    && uid != 0 && prev.value.podUid == uid && |prev.value.parents| < MAX_DIFF_CHAIN
  }

  predicate Terminal(phase: Phase) {
    phase == Completed || phase == Failed
  }

  predicate Ending(pod: Option<Pod>) {
    pod.Some? ==> pod.value.deleting || pod.value.condemned
  }

  /** The cache shows that the Pod of a suspended session still ends. */
  predicate HoldingSuspend(w: World) {
    w.phase == Suspended && w.cache.Some? && Ending(w.cache)
  }

  /** Whether a suspended session without a Pod resumes. */
  predicate SuspendedAction(desired: Desired, reason: Reason, since: int, activity: int) {
    && desired != DesiredSuspended
    && match reason
       case SuspendedPauseTimeout => desired == DesiredUnset || desired == DesiredRunning
       case SuspendedIdle => since <= activity
       case _ => true
  }

  predicate Resumes(w: World) {
    SuspendedAction(w.desired, w.reason, w.since, w.activity)
  }

  // ---------------------------------------------------------------------------
  // Steps
  // ---------------------------------------------------------------------------

  /**
   How a checkpoint attempt ends. A failed RPC may still have stored the object;
   uidRead is whether the cached Pod could be read for its UID.
   */
  datatype Take = TakeFailed(stored: bool, uidRead: bool) | Taken(uidRead: bool, kept: set<Ref>)

  /** How the writes to the Pod of a suspend end. */
  datatype PodWrite = PodDone | MarkFailed | DeleteFailed

  /** How the load of a checkpoint ends. Without the key nothing is loaded. */
  datatype Attempt = KeyMissing | LoadFailed | GateRefused | Restored

  /** How deleteSessionPod ends. A Pod that cannot be read is passed over without an error. */
  datatype Removal = Removed | RemoveFailed | Unread

  /** Sync is the Pod cache catching up; Boot, End, Evict and Vanish are the Pod's own. */
  datatype Step =
    | SetDesired(desired: Desired)
    | Touch(activity: int)
    | Tick(now: int)
    | Boot
    | End
    | Evict
    | Vanish
    | Sync
    | Derive(phase: Phase, reason: Reason)
    | Checkpoint(take: Take)
    | Suspend(why: Reason, take: Take, podWrite: PodWrite)
    | Restore(view: Ckpt, attempt: Attempt, removal: Removal, kept: set<Ref>)
    | LoseNode(podDeleted: bool)
    | RestartExited(podDeleted: bool)
    | Missing(podCreated: bool)

  /** A status write of the checkpoint is one more view a stale cache may show. */
  function SetCkpt(w: World, ck: Ckpt): World {
    w.(ck := Some(ck), log := w.log.(views := w.log.views + [Some(ck)]))
  }

  /** The object one checkpoint writes, and the status it becomes. The machine is that of the Pod. */
  function NewCkpt(p: Policy, w: World, uidRead: bool): (r: (Object, Ckpt))
    requires w.cache.Some?
  {
    var prev := w.ck;
    var uid := if uidRead then w.cache.value.uid else 0;
    var sequence := NextSequence(prev);
    var diff := TakesDiff(p, prev, uid);
    var entry := Object(if diff then prev.value.ref else NoRef, w.cache.value.uid);
    var parents := if diff then Links(prev.value) else [];
    (entry, Ckpt(Ref(sequence), sequence, uid, parents, false, Some(w.now), CopyRecovery(prev)))
  }

  /** The store once the new object is saved. */
  function Saved(p: Policy, w: World, uidRead: bool): Store
    requires w.cache.Some?
  {
    var (entry, ck) := NewCkpt(p, w, uidRead);
    w.store[ck.ref := entry]
  }

  /** takeCheckpoint: save the new checkpoint, destroy the superseded chain, patch the status. */
  function DoTake(p: Policy, w: World, take: Take): World
    requires w.cache.Some?
  {
    match take
    case TakeFailed(stored, uidRead) => if stored then w.(store := Saved(p, w, uidRead)) else w
    case Taken(uidRead, kept) =>
      var (entry, ck) := NewCkpt(p, w, uidRead);
      var saved := Saved(p, w, uidRead);
      var cleaned := if HasRef(w) && ck.parents == [] then DeleteChain(saved, w.ck.value, kept) else saved;
      var record := Record(w.cache.value.uid, ck.podUid);
      SetCkpt(w.(store := cleaned,
                 log := w.log.(taken := w.log.taken + [ck.sequence], recorded := w.log.recorded[ck.ref := record])), ck)
  }

  /** The closing status patch of a suspend: the checkpoint is pending when it is fresh or the session is durable. */
  function PatchSuspended(p: Policy, w: World, why: Reason, fresh_: bool): World {
    var ck := if w.ck.None? then EMPTY_CKPT else w.ck.value;
    SetCkpt(w.(phase := Suspended, reason := why, since := w.now),
            ck.(pending := ck.ref != NoRef && (fresh_ || p.durable)))
  }

  function CondemnPod(w: World): World {
    if w.pod.Some? then w.(pod := Some(w.pod.value.(condemned := true))) else w
  }

  function DeletePod(w: World): World {
    if w.pod.Some? then w.(pod := Some(w.pod.value.(deleting := true))) else w
  }

  /**
   suspendSession: checkpoint, mark and delete the Pod, patch Suspended. The
   cached Pod says whether there is anything to delete.
   */
  function DoSuspend(p: Policy, w: World, why: Reason, take: Take, podWrite: PodWrite): World
    requires w.cache.Some?
  {
    var w1 := DoTake(p, w, take);
    var ending := w.cache.value.deleting;
    if take.TakeFailed? && why != CheckpointOnDrain then w1
    else if !ending && podWrite == MarkFailed then w1
    else if !ending && podWrite == DeleteFailed then CondemnPod(w1)
    else PatchSuspended(p, if ending then w1 else DeletePod(CondemnPod(w1)), why, take.Taken?)
  }

  /** The live Sandbox still has the pending checkpoint of the view. */
  predicate StillPending(w: World, view: Ckpt) {
    w.ck.Some? && w.ck.value.pending && w.ck.value.ref == view.ref
  }

  /** The restore deletes the Pod it refused or could not fill. */
  predicate DeletesPod(p: Policy, attempt: Attempt) {
    attempt == GateRefused || (p.launcher && attempt != Restored)
  }

  /** The restore returns before the checkpoint is consumed. */
  predicate Aborts(p: Policy, attempt: Attempt, removal: Removal) {
    DeletesPod(p, attempt) && removal == RemoveFailed
  }

  predicate Loads(attempt: Attempt) {
    attempt != KeyMissing
  }

  /** The call to load, into the machine of the Pod. */
  function LogLoad(w: World, ref: Ref, attempt: Attempt): World
    requires w.cache.Some?
  {
    if Loads(attempt) then w.(log := w.log.(loads := w.log.loads + [Load(ref, w.cache.value.uid)])) else w
  }

  /**
   restorePendingCheckpoint after the live read: load, delete the Pod when
   needed, destroy the chain, patch the status. A failed Pod delete returns
   before the checkpoint is consumed.
   */
  function DoRestore(p: Policy, w: World, view: Ckpt, attempt: Attempt, removal: Removal, kept: set<Ref>): World
    requires w.cache.Some?
  {
    var w1 := LogLoad(w, view.ref, attempt);
    if Aborts(p, attempt, removal) then Abort(w1, view.ref, attempt)
    else
      var w2 := if DeletesPod(p, attempt) && removal == Removed then DeletePod(w1) else w1;
      Consume(w2, view, attempt, kept)
  }

  function Abort(w: World, ref: Ref, attempt: Attempt): World {
    if Loads(attempt) then w.(log := w.log.(aborted := w.log.aborted + [ref])) else w
  }

  /** The end of a restore: destroy the chain, record the recovery, keep only the sequence. */
  function Consume(w: World, view: Ckpt, attempt: Attempt, kept: set<Ref>): World {
    var kind := if attempt == Restored then ResumedFromCheckpoint else RestartedFromWorkspace;
    SetCkpt(w.(store := DeleteChain(w.store, view, kept),
               log := w.log.(consumed := w.log.consumed + {view.ref},
                             spent := if Loads(attempt) then w.log.spent + {view.ref} else w.log.spent,
                             recoveries := w.log.recoveries + 1)),
            EMPTY_CKPT.(sequence := view.sequence,
                        recovery := RecordRecovery(view.recovery, kind, w.now, view.takenAt)))
  }

  function MarkPending(w: World): World {
    if w.ck.Some? && w.ck.value.ref != NoRef && !w.ck.value.pending then SetCkpt(w, w.ck.value.(pending := true)) else w
  }

  /** Record the degraded recovery, then delete the exited Pod; a failed delete records again next time. */
  function DoRestartExited(w: World, podDeleted: bool): World {
    var w1 :=
      if HasRef(w) then w
      else
        var ck := if w.ck.None? then EMPTY_CKPT else w.ck.value;
        SetCkpt(w.(log := w.log.(recoveries := w.log.recoveries + 1)),
                ck.(recovery := RecordRecovery(ck.recovery, RestartedFromWorkspace, w.now, None)));
    if podDeleted then DeletePod(w1) else w1
  }

  /**
   handleMissingPod: hold or recycle a suspended session, else mark the
   checkpoint and make a Pod. The create fails when a Pod is there that the
   cache does not show yet.
   */
  function DoMissing(p: Policy, w: World, podCreated: bool): World {
    if Terminal(w.phase) then w
    else if w.phase == Suspended && !Resumes(w) then
      if w.now < w.since + p.ttl then w else w.(gone := true)
    else if podCreated && w.pod.None? then CreatePod(MarkPending(w))
    else MarkPending(w)
  }

  function CreatePod(w: World): World {
    w.(pod := Some(Pod(w.nextUid, false, false, Starting)), nextUid := w.nextUid + 1,
       log := w.log.(created := w.log.created + 1))
  }

  /** resumeAfterNodeLoss: mark the last checkpoint, then remove the Pod at once. */
  function DoLoseNode(w: World, podDeleted: bool): World {
    if podDeleted then MarkPending(w).(pod := None) else MarkPending(w)
  }

  /** The cache shows a Pod that no suspend holds or condemned: the checkpoint steps apply. */
  predicate PodSteps(w: World) {
    w.cache.Some? && !w.cache.value.condemned && !HoldingSuspend(w)
  }

  /** The cached Pod runs and does not end: a restore may load into it. */
  predicate CacheUp(w: World) {
    w.cache.Some? && w.cache.value.stage == Up && !Ending(w.cache)
  }

  predicate Alive(phase: Phase) {
    phase == Running || phase == Paused
  }

  /** What each reason to suspend asks of the status; the deadlines are the environment's. */
  predicate SuspendOk(w: World, why: Reason) {
    match why
    case NoReason => false
    case UserSuspended => w.desired == DesiredSuspended && Alive(w.phase)
    case SuspendedIdle => w.phase == Running
    case SuspendedPauseTimeout => w.phase == Paused
    case CheckpointOnDrain => Alive(w.phase)
  }

  /** A checkpoint succeeds only while the Pod exists. */
  predicate CanTake(w: World, take: Take) {
    take.Taken? ==> w.pod.Some?
  }

  /**
   When a step can be taken. A restore may act on any earlier view of the
   Sandbox, and every step of the reconciler acts on the cached Pod.
   */
  predicate Enabled(p: Policy, w: World, s: Step) {
    && !w.gone
    && match s
       case Touch(activity) => w.activity <= activity
       case Tick(now) => w.now <= now
       case Boot => w.pod.Some? && w.pod.value.stage == Starting
       case End => w.pod.Some?
       case Evict => w.pod.Some?
       case Vanish => w.pod.Some?
       case Derive(phase, _) => w.cache.Some? && !HoldingSuspend(w) && phase != Suspended && !Terminal(w.phase)
       case Checkpoint(take) => PodSteps(w) && w.phase == Running && CanTake(w, take)
       case Suspend(why, take, _) => PodSteps(w) && SuspendOk(w, why) && CanTake(w, take)
       case Restore(view, _, _, _) =>
         && Some(view) in w.log.views && view.pending && StillPending(w, view)
         && CacheUp(w) && (view.podUid == 0 || w.cache.value.uid != view.podUid)
       case LoseNode(_) => PodSteps(w) && p.durable
       case RestartExited(_) =>
         PodSteps(w) && w.cache.value.stage == Ended && !w.cache.value.deleting && !Terminal(w.phase)
       case Missing(_) => w.cache.None?
       case _ => true
  }

  function Apply(p: Policy, w: World, s: Step): World
    requires Enabled(p, w, s)
  {
    match s
    case SetDesired(d) => w.(desired := d)
    case Touch(a) => w.(activity := a)
    case Tick(t) => w.(now := t)
    case Boot => w.(pod := Some(w.pod.value.(stage := Up)))
    case End => w.(pod := Some(w.pod.value.(stage := Ended)))
    case Evict => DeletePod(w)
    case Vanish => w.(pod := None)
    case Sync => w.(cache := w.pod)
    case Derive(phase, reason) =>
      w.(phase := phase, reason := reason, since := if phase == w.phase then w.since else w.now)
    case Checkpoint(take) => DoTake(p, w, take)
    case Suspend(why, take, podWrite) => DoSuspend(p, w, why, take, podWrite)
    case Restore(view, attempt, removal, kept) => DoRestore(p, w, view, attempt, removal, kept)
    case LoseNode(podDeleted) => DoLoseNode(w, podDeleted)
    case RestartExited(podDeleted) => DoRestartExited(w, podDeleted)
    case Missing(podCreated) => DoMissing(p, w, podCreated)
  }

  predicate Init(w: World) {
    && w.ck.None? && w.phase == Pending && w.pod.None? && w.cache.None? && w.nextUid == 1 && !w.gone && w.store == map[]
    && w.log == Log([], map[], [None], [], {}, {}, [], 0, 0)
  }

  /** ws[i + 1] is ws[i] after step ss[i]. */
  predicate Run(p: Policy, ws: seq<World>, ss: seq<Step>) {
    && |ws| == |ss| + 1
    && forall i :: 0 <= i < |ss| ==> Enabled(p, ws[i], ss[i]) && ws[i + 1] == Apply(p, ws[i], ss[i])
  }

  // ---------------------------------------------------------------------------
  // The invariant
  // ---------------------------------------------------------------------------

  predicate HasRef(w: World) {
    w.ck.Some? && w.ck.value.ref != NoRef
  }

  function Sequence(w: World): nat {
    if w.ck.None? then 0 else w.ck.value.sequence
  }

  /** The chain of a status: short, complete in the store, in order, and written by one Pod. */
  ghost predicate GoodChain(store: Store, ck: Ckpt) {
    && ck.ref == Ref(ck.sequence) && |ck.parents| <= MAX_DIFF_CHAIN
    && Complete(store, Links(ck)) && Increasing(Links(ck))
    && exists writer :: OneWriter(store, Links(ck), writer) && (ck.podUid != 0 ==> writer == ck.podUid)
  }

  ghost predicate ChainOk(w: World) {
    && (HasRef(w) ==> GoodChain(w.store, w.ck.value))
    && (w.ck.Some? && w.ck.value.ref == NoRef ==> !w.ck.value.pending)
  }

  /** Sequence numbers of completed checkpoints never repeat, and nothing stored or seen is past the current one. */
  ghost predicate SequenceOk(w: World) {
    && (forall i, j :: 0 <= i < j < |w.log.taken| ==> w.log.taken[i] < w.log.taken[j])
    && Sequence(w) == (if w.log.taken == [] then 0 else w.log.taken[|w.log.taken| - 1])
    && (forall r :: r in w.store ==> r.Ref? && r.sequence <= Sequence(w) + 1)
    && (forall r :: r in w.log.recorded ==> r.Ref? && r.sequence <= Sequence(w))
    && (forall r :: r in w.log.consumed ==> r.Ref? && r.sequence <= Sequence(w))
    && (forall v :: v in w.log.views && v.Some? && v.value.ref.Ref? ==> v.value.ref.sequence <= Sequence(w))
  }

  /** Any view with the live reference differs from the live status in the pending mark at most. */
  ghost predicate ViewsOk(w: World) {
    && w.ck in w.log.views
    && forall v :: v in w.log.views && v.Some? && HasRef(w) && v.value.ref == w.ck.value.ref ==>
         v.value.(pending := w.ck.value.pending) == w.ck.value
  }

  function LoadedRefs(loads: seq<Load>): seq<Ref> {
    seq(|loads|, i requires 0 <= i < |loads| => loads[i].ref)
  }

  function LoadsOf(loads: seq<Load>, r: Ref): nat {
    multiset(LoadedRefs(loads))[r]
  }

  function AbortsOf(aborted: seq<Ref>, r: Ref): nat {
    multiset(aborted)[r]
  }

  /** Each load of a reference is one of an aborted restore, or the one of the restore that consumed it. */
  ghost predicate LoadsPaid(loads: seq<Load>, aborted: seq<Ref>, spent: set<Ref>) {
    forall r :: LoadsOf(loads, r) == AbortsOf(aborted, r) + if r in spent then 1 else 0
  }

  /** A load into the Pod that wrote its checkpoint has a status that recorded no UID. */
  predicate LoadsElsewhere(loads: seq<Load>, recorded: map<Ref, Record>) {
    forall l :: l in loads ==> l.ref in recorded && (l.target == recorded[l.ref].writer ==> recorded[l.ref].uid == 0)
  }

  predicate RecordsOk(recorded: map<Ref, Record>) {
    forall r :: r in recorded ==> recorded[r].uid == 0 || recorded[r].uid == recorded[r].writer
  }

  /** A live reference is not consumed, and its writer is recorded. */
  ghost predicate LoadsOk(w: World) {
    && (HasRef(w) ==> && w.ck.value.ref !in w.log.consumed
                      && w.ck.value.ref in w.log.recorded && w.log.recorded[w.ck.value.ref].uid == w.ck.value.podUid)
    && RecordsOk(w.log.recorded)
    && w.log.spent <= w.log.consumed
    && LoadsElsewhere(w.log.loads, w.log.recorded)
    && LoadsPaid(w.log.loads, w.log.aborted, w.log.spent)
  }

  /** A later state of the same Pod: marks stay. */
  predicate Grown(a: Option<Pod>, b: Option<Pod>) {
    b.Some? ==>
      && a.Some? && b.value.uid == a.value.uid
      && (a.value.deleting ==> b.value.deleting) && (a.value.condemned ==> b.value.condemned)
  }

  /** The live and the cached Pod are the last one created: a new one is made only after the cache let go of the old. */
  ghost predicate PodsOk(w: World) {
    && (w.pod.Some? ==> 1 <= w.pod.value.uid && w.pod.value.uid + 1 == w.nextUid)
    && (w.cache.Some? ==> 1 <= w.cache.value.uid && w.cache.value.uid + 1 == w.nextUid)
    && w.log.created + 1 == w.nextUid
    && (w.cache.Some? ==> Grown(w.cache, w.pod))
  }

  ghost predicate RecoveriesOk(w: World) {
    CopyRecovery(w.ck).count == w.log.recoveries
  }

  ghost predicate Inv(w: World) {
    ChainOk(w) && SequenceOk(w) && ViewsOk(w) && LoadsOk(w) && PodsOk(w) && RecoveriesOk(w)
  }

  lemma InitInv(w: World)
    requires Init(w)
    ensures Inv(w)
  {
  }

  // ---------------------------------------------------------------------------
  // Taking a checkpoint
  // ---------------------------------------------------------------------------

  /** Deleting other references leaves a chain as it is. */
  lemma ChainSurvives(store: Store, store': Store, links: seq<Ref>)
    requires Complete(store, links)
    requires forall r :: r in links ==> r in store' && store'[r] == store[r]
    ensures Complete(store', links)
    ensures forall writer :: OneWriter(store, links, writer) ==> OneWriter(store', links, writer)
  {
    assert forall i :: 0 <= i < |links| ==> links[i] in links;
  }

  /** A diff extends the chain below it. */
  lemma DiffChain(store: Store, links: seq<Ref>, ref: Ref, writer: Uid)
    requires Complete(store, links) && Increasing(links) && OneWriter(store, links, writer)
    requires ref.Ref? && forall i :: 0 <= i < |links| ==> links[i].sequence < ref.sequence
    ensures var store' := store[ref := Object(links[|links| - 1], writer)];
            Complete(store', links + [ref]) && Increasing(links + [ref]) && OneWriter(store', links + [ref], writer)
  {
    var store' := store[ref := Object(links[|links| - 1], writer)];
    assert ref !in links;
    assert forall i :: 0 <= i < |links| ==> links[i] in links;
    ChainSurvives(store, store', links);
  }

  /** The chain of the new status is good in the store right after the save. */
  lemma SavedChain(p: Policy, w: World, uidRead: bool)
    requires Inv(w) && w.cache.Some?
    ensures GoodChain(Saved(p, w, uidRead), NewCkpt(p, w, uidRead).1)
  {
    var (entry, ck) := NewCkpt(p, w, uidRead);
    var store := w.store[ck.ref := entry];
    if ck.parents == [] {
      assert Links(ck) == [ck.ref];
      assert OneWriter(store, Links(ck), w.cache.value.uid);
    } else {
      var links := Links(w.ck.value);
      assert Links(ck) == links + [ck.ref];
      assert links[|links| - 1] == w.ck.value.ref;
      LinksBelow(w, w.ck.value.ref);
      DiffChain(w.store, links, ck.ref, w.cache.value.uid);
    }
  }

  lemma LinksBelow(w: World, last: Ref)
    requires Inv(w) && HasRef(w) && last == w.ck.value.ref
    ensures forall i :: 0 <= i < |Links(w.ck.value)| ==>
              Links(w.ck.value)[i].Ref? && Links(w.ck.value)[i].sequence <= Sequence(w)
  {
    var links := Links(w.ck.value);
    assert links[|links| - 1] == last;
  }

  /** The new chain shares no link with a chain that is destroyed for it. */
  lemma CleanedChain(p: Policy, w: World, uidRead: bool, kept: set<Ref>)
    requires Inv(w) && w.cache.Some?
    ensures GoodChain(DoTake(p, w, Taken(uidRead, kept)).store, NewCkpt(p, w, uidRead).1)
  {
    var (entry, ck) := NewCkpt(p, w, uidRead);
    var saved := Saved(p, w, uidRead);
    SavedChain(p, w, uidRead);
    if HasRef(w) && ck.parents == [] {
      LinksBelow(w, w.ck.value.ref);
      assert ck.ref !in Links(w.ck.value);
      assert Links(ck) == [ck.ref];
      ChainSurvives(saved, DeleteChain(saved, w.ck.value, kept), Links(ck));
    }
  }

  lemma TakenSequence(p: Policy, w: World, uidRead: bool, kept: set<Ref>)
    requires SequenceOk(w) && w.cache.Some?
    ensures SequenceOk(DoTake(p, w, Taken(uidRead, kept)))
  {
    hide Links, TakesDiff;
    var w' := DoTake(p, w, Taken(uidRead, kept));
    assert Sequence(w') == Sequence(w) + 1;
    assert forall r :: r in w'.store ==> r in w.store || r == Ref(Sequence(w'));
    assert w'.log.taken == w.log.taken + [Sequence(w')];
  }

  lemma TakenViews(p: Policy, w: World, uidRead: bool, kept: set<Ref>)
    requires SequenceOk(w) && w.cache.Some?
    ensures ViewsOk(DoTake(p, w, Taken(uidRead, kept)))
  {
    hide Links, TakesDiff, DeleteChain;
    var w' := DoTake(p, w, Taken(uidRead, kept));
    assert w'.log.views == w.log.views + [w'.ck];
    assert w'.ck.value.ref == Ref(Sequence(w) + 1);
  }

  lemma TakenLoads(p: Policy, w: World, uidRead: bool, kept: set<Ref>)
    requires SequenceOk(w) && LoadsOk(w) && w.cache.Some?
    ensures LoadsOk(DoTake(p, w, Taken(uidRead, kept)))
  {
    hide Links, TakesDiff, DeleteChain, LoadsPaid;
    var w' := DoTake(p, w, Taken(uidRead, kept));
    var ref := Ref(Sequence(w) + 1);
    assert w'.ck.value.ref == ref && ref !in w.log.consumed && ref !in w.log.recorded;
  }

  lemma TakenInv(p: Policy, w: World, uidRead: bool, kept: set<Ref>)
    requires Inv(w) && w.cache.Some?
    ensures Inv(DoTake(p, w, Taken(uidRead, kept)))
  {
    CleanedChain(p, w, uidRead, kept);
    TakenSequence(p, w, uidRead, kept);
    TakenViews(p, w, uidRead, kept);
    TakenLoads(p, w, uidRead, kept);
    hide GoodChain, Links, SequenceOk, ViewsOk, LoadsOk, TakesDiff, DeleteChain;
  }

  /** A stored object without a status harms no chain. */
  lemma OrphanChain(w: World, entry: Object)
    requires Inv(w)
    ensures var w' := w.(store := w.store[Ref(NextSequence(w.ck)) := entry]); ChainOk(w') && SequenceOk(w')
  {
    hide LoadsOk, ViewsOk;
    var w' := w.(store := w.store[Ref(NextSequence(w.ck)) := entry]);
    if HasRef(w) {
      LinksBelow(w, w.ck.value.ref);
      assert Ref(Sequence(w) + 1) !in Links(w.ck.value);
      ChainSurvives(w.store, w'.store, Links(w.ck.value));
    }
  }

  lemma TakeFailedInv(p: Policy, w: World, stored: bool, uidRead: bool)
    requires Inv(w) && w.cache.Some?
    ensures Inv(DoTake(p, w, TakeFailed(stored, uidRead)))
  {
    OrphanChain(w, NewCkpt(p, w, uidRead).0);
    hide ChainOk, SequenceOk, LoadsPaid, LoadsElsewhere, TakesDiff, Links;
  }

  lemma TakeInv(p: Policy, w: World, take: Take)
    requires Inv(w) && w.cache.Some?
    ensures Inv(DoTake(p, w, take))
  {
    hide Inv, DoTake;
    match take
    case TakeFailed(stored, uidRead) => TakeFailedInv(p, w, stored, uidRead);
    case Taken(uidRead, kept) => TakenInv(p, w, uidRead, kept);
  }

  /** A checkpoint touches neither the Pod nor what the session is asked to do. */
  lemma TakeFrame(p: Policy, w: World, take: Take)
    requires w.cache.Some?
    ensures var w' := DoTake(p, w, take);
            && w'.pod == w.pod && w'.cache == w.cache && w'.nextUid == w.nextUid && w'.gone == w.gone
            && w'.phase == w.phase && w'.reason == w.reason && w'.since == w.since && w'.now == w.now
            && w'.log.loads == w.log.loads && w'.log.consumed == w.log.consumed && w'.log.created == w.log.created
            && (take.TakeFailed? ==> w'.ck == w.ck)
  {
    hide NewCkpt, DeleteChain, Saved;
  }

  // ---------------------------------------------------------------------------
  // The other steps
  // ---------------------------------------------------------------------------

  /** The worlds agree on everything the invariant reads. */
  predicate SameCore(w: World, w': World) {
    && w'.ck == w.ck && w'.store == w.store && w'.nextUid == w.nextUid && w'.log == w.log
    && Grown(w.pod, w'.pod)
    && (w'.cache == w.cache || (w'.cache == w.pod && w'.pod == w.pod))
  }

  lemma FrameInv(w: World, w': World)
    requires Inv(w) && SameCore(w, w')
    ensures Inv(w')
  {
    hide GoodChain, LoadsPaid;
  }

  /** Writing the live status again with another pending mark, or the first empty status. */
  lemma RemarkInv(w: World, ck: Ckpt)
    requires Inv(w) && (ck.ref == NoRef ==> !ck.pending)
    requires if w.ck.None? then ck == EMPTY_CKPT else ck == w.ck.value.(pending := ck.pending)
    ensures Inv(SetCkpt(w, ck))
  {
    RemarkSequence(w, ck);
    if HasRef(w) {
      assert Links(ck) == Links(w.ck.value);
    }
    hide Complete, Increasing, OneWriter, LoadsPaid, LoadsElsewhere, Links, SequenceOk;
  }

  lemma RemarkSequence(w: World, ck: Ckpt)
    requires SequenceOk(w)
    requires if w.ck.None? then ck == EMPTY_CKPT else ck == w.ck.value.(pending := ck.pending)
    requires w.ck.Some? && w.ck.value.ref.Ref? ==> w.ck.value.ref.sequence <= w.ck.value.sequence
    ensures SequenceOk(SetCkpt(w, ck))
  {
  }

  lemma PatchSuspendedInv(p: Policy, w: World, why: Reason, fresh_: bool)
    requires Inv(w)
    ensures Inv(PatchSuspended(p, w, why, fresh_))
  {
    var w' := PatchSuspended(p, w, why, fresh_);
    var mid := w.(phase := w'.phase, reason := w'.reason, since := w'.since);
    hide Inv;
    FrameInv(w, mid);
    RemarkInv(mid, w'.ck.value);
  }

  lemma PodInv(w: World)
    requires Inv(w)
    ensures Inv(CondemnPod(w)) && Inv(DeletePod(w)) && Inv(DeletePod(CondemnPod(w)))
  {
    hide Inv;
    FrameInv(w, CondemnPod(w));
    FrameInv(w, DeletePod(w));
    FrameInv(CondemnPod(w), DeletePod(CondemnPod(w)));
  }

  lemma SuspendInv(p: Policy, w: World, why: Reason, take: Take, podWrite: PodWrite)
    requires Inv(w) && w.cache.Some?
    ensures Inv(DoSuspend(p, w, why, take, podWrite))
  {
    hide Inv, DoTake, PatchSuspended, CondemnPod, DeletePod;
    var w1 := DoTake(p, w, take);
    TakeInv(p, w, take);
    PodInv(w1);
    PatchSuspendedInv(p, w1, why, take.Taken?);
    PatchSuspendedInv(p, DeletePod(CondemnPod(w1)), why, take.Taken?);
  }

  lemma MarkPendingInv(w: World)
    requires Inv(w)
    ensures Inv(MarkPending(w)) && MarkPending(w).pod == w.pod && MarkPending(w).cache == w.cache
  {
    hide Inv;
    if HasRef(w) {
      RemarkInv(w, w.ck.value.(pending := true));
    }
  }

  lemma CreatePodInv(w: World)
    requires Inv(w) && w.cache.None?
    ensures Inv(CreatePod(w))
  {
    hide GoodChain, LoadsPaid;
    var w' := CreatePod(w);
  }

  lemma MissingInv(p: Policy, w: World, podCreated: bool)
    requires Inv(w) && w.cache.None?
    ensures Inv(DoMissing(p, w, podCreated))
  {
    hide Inv, MarkPending, CreatePod;
    MarkPendingInv(w);
    CreatePodInv(MarkPending(w));
    FrameInv(w, w.(gone := true));
  }

  lemma LoseNodeInv(w: World, podDeleted: bool)
    requires Inv(w)
    ensures Inv(DoLoseNode(w, podDeleted))
  {
    hide Inv, MarkPending;
    MarkPendingInv(w);
    FrameInv(MarkPending(w), MarkPending(w).(pod := None));
  }

  lemma RestartExitedInv(w: World, podDeleted: bool)
    requires Inv(w)
    ensures Inv(DoRestartExited(w, podDeleted))
  {
    hide Inv;
    if HasRef(w) {
      PodInv(w);
    } else {
      RecoveredInv(w);
      PodInv(DoRestartExited(w, false));
    }
  }

  lemma RecoveredInv(w: World)
    requires Inv(w) && !HasRef(w)
    ensures Inv(DoRestartExited(w, false))
  {
    hide LoadsPaid, SequenceOk, LoadsElsewhere, GoodChain;
    RestartSequence(w);
  }

  lemma RestartSequence(w: World)
    requires SequenceOk(w)
    ensures SequenceOk(DoRestartExited(w, false))
  {
    var w' := DoRestartExited(w, false);
    assert w'.log.views == w.log.views || w'.log.views == w.log.views + [w'.ck];
  }

  lemma LoadCount(loads: seq<Load>, l: Load, r: Ref)
    ensures LoadsOf(loads + [l], r) == LoadsOf(loads, r) + if r == l.ref then 1 else 0
  {
    assert LoadedRefs(loads + [l]) == LoadedRefs(loads) + [l.ref];
  }

  /** One more load is that of one more aborted restore, or that of the consuming one. */
  lemma LoadPaid(loads: seq<Load>, aborted: seq<Ref>, spent: set<Ref>, l: Load)
    requires LoadsPaid(loads, aborted, spent)
    ensures LoadsPaid(loads + [l], aborted + [l.ref], spent)
    ensures l.ref !in spent ==> LoadsPaid(loads + [l], aborted, spent + {l.ref})
  {
    forall r ensures LoadsOf(loads + [l], r) == LoadsOf(loads, r) + if r == l.ref then 1 else 0 {
      LoadCount(loads, l, r);
    }
    hide LoadsOf;
    assert forall r :: AbortsOf(aborted + [l.ref], r) == AbortsOf(aborted, r) + if r == l.ref then 1 else 0;
  }

  /** The guard of restoreDue on the cached Pod. */
  predicate NotTheWriter(w: World) {
    HasRef(w) && w.cache.Some? && (w.ck.value.podUid == 0 || w.cache.value.uid != w.ck.value.podUid)
  }

  /** A view that passes the live read is the live status. */
  lemma RestoreView(p: Policy, w: World, s: Step)
    requires Inv(w) && s.Restore? && Enabled(p, w, s)
    ensures HasRef(w) && s.view == w.ck.value && w.ck.value.ref == Ref(w.ck.value.sequence) && NotTheWriter(w)
  {
    hide SequenceOk, LoadsOk, Complete, Increasing, OneWriter;
    assert s.view.(pending := true) == w.ck.value;
  }

  /** The guard keeps the load off the recorded writer. */
  lemma RestoreLoads(w: World, attempt: Attempt, kept: set<Ref>)
    requires LoadsOk(w) && NotTheWriter(w)
    ensures LoadsOk(Abort(LogLoad(w, w.ck.value.ref, attempt), w.ck.value.ref, attempt))
    ensures LoadsOk(Consume(LogLoad(w, w.ck.value.ref, attempt), w.ck.value, attempt, kept))
  {
    hide LoadsPaid, DeleteChain, RecordRecovery;
    LoadPaid(w.log.loads, w.log.aborted, w.log.spent, Load(w.ck.value.ref, w.cache.value.uid));
  }

  lemma ConsumeSequence(w: World, attempt: Attempt, kept: set<Ref>)
    requires SequenceOk(w) && HasRef(w) && w.ck.value.ref == Ref(w.ck.value.sequence)
    ensures SequenceOk(Consume(w, w.ck.value, attempt, kept))
  {
    hide Links, RecordRecovery;
    var w' := Consume(w, w.ck.value, attempt, kept);
    assert w'.log.views == w.log.views + [w'.ck];
    assert forall r :: r in w'.store ==> r in w.store;
  }

  lemma AbortInv(w: World, attempt: Attempt)
    requires Inv(w) && NotTheWriter(w)
    ensures Inv(Abort(LogLoad(w, w.ck.value.ref, attempt), w.ck.value.ref, attempt))
  {
    hide LoadsOk, GoodChain, SequenceOk;
    RestoreLoads(w, attempt, {});
    LoadSequence(w, attempt);
  }

  lemma ConsumeInv(w: World, attempt: Attempt, kept: set<Ref>)
    requires Inv(w) && NotTheWriter(w)
    ensures Inv(Consume(LogLoad(w, w.ck.value.ref, attempt), w.ck.value, attempt, kept))
  {
    hide LoadsOk, GoodChain, DeleteChain, SequenceOk;
    RestoreLoads(w, attempt, kept);
    LoadSequence(w, attempt);
    ConsumeSequence(LogLoad(w, w.ck.value.ref, attempt), attempt, kept);
  }

  lemma LoadSequence(w: World, attempt: Attempt)
    requires ChainOk(w) && SequenceOk(w) && HasRef(w) && w.cache.Some?
    ensures w.ck.value.ref == Ref(w.ck.value.sequence)
    ensures var w1 := LogLoad(w, w.ck.value.ref, attempt);
            SequenceOk(w1) && SequenceOk(Abort(w1, w.ck.value.ref, attempt))
  {
    hide SequenceOk;
    var w1 := LogLoad(w, w.ck.value.ref, attempt);
    SequenceFrame(w, w1);
    SequenceFrame(w, Abort(w1, w.ck.value.ref, attempt));
  }

  lemma SequenceFrame(w: World, w': World)
    requires SequenceOk(w) && w'.ck == w.ck && w'.store == w.store && w'.log.taken == w.log.taken
    requires w'.log.recorded == w.log.recorded && w'.log.consumed == w.log.consumed && w'.log.views == w.log.views
    ensures SequenceOk(w')
  {
  }

  /** Where the Pod is deleted along the way does not matter. */
  lemma ConsumeDeletes(w: World, view: Ckpt, attempt: Attempt, kept: set<Ref>)
    ensures Consume(DeletePod(w), view, attempt, kept) == DeletePod(Consume(w, view, attempt, kept))
  {
    hide DeleteChain, RecordRecovery;
  }

  lemma RestoreInv(p: Policy, w: World, s: Step)
    requires Inv(w) && s.Restore? && Enabled(p, w, s)
    ensures Inv(DoRestore(p, w, s.view, s.attempt, s.removal, s.kept))
  {
    hide Inv, Enabled, LogLoad, Abort, Consume, DeletePod, HasRef;
    RestoreView(p, w, s);
    var w1 := LogLoad(w, s.view.ref, s.attempt);
    AbortInv(w, s.attempt);
    ConsumeInv(w, s.attempt, s.kept);
    ConsumeDeletes(w1, s.view, s.attempt, s.kept);
    PodInv(Consume(w1, s.view, s.attempt, s.kept));
  }

  /** Every step keeps the invariant. */
  lemma StepInv(p: Policy, w: World, s: Step)
    requires Inv(w) && Enabled(p, w, s)
    ensures Inv(Apply(p, w, s))
  {
    hide Inv, DoTake, DoSuspend, DoRestore, DoMissing, DoLoseNode, DoRestartExited, MarkPending;
    match s
    case Checkpoint(take) => TakeInv(p, w, take);
    case Suspend(why, take, podWrite) => SuspendInv(p, w, why, take, podWrite);
    case Restore(_, _, _, _) => RestoreInv(p, w, s);
    case LoseNode(podDeleted) => LoseNodeInv(w, podDeleted);
    case RestartExited(podDeleted) => RestartExitedInv(w, podDeleted);
    case Missing(podCreated) => MissingInv(p, w, podCreated);
    case _ => FrameInv(w, Apply(p, w, s));
  }

  lemma RunStep(p: Policy, ws: seq<World>, ss: seq<Step>, i: nat)
    requires Run(p, ws, ss) && i < |ss|
    ensures |ws| == |ss| + 1 && Enabled(p, ws[i], ss[i]) && ws[i + 1] == Apply(p, ws[i], ss[i])
  {
    hide Enabled, Apply;
  }

  lemma RunLength(p: Policy, ws: seq<World>, ss: seq<Step>)
    requires Run(p, ws, ss)
    ensures |ws| == |ss| + 1
  {
  }

  /** Every state of a run that starts within the invariant stays within it. */
  lemma {:induction false} RunInv(p: Policy, ws: seq<World>, ss: seq<Step>, i: nat)
    requires Run(p, ws, ss) && Inv(ws[0]) && i < |ws|
    ensures Inv(ws[i])
  {
    hide *;
    RunLength(p, ws, ss);
    if i > 0 {
      RunInv(p, ws, ss, i - 1);
      RunStep(p, ws, ss, i - 1);
      StepInv(p, ws[i - 1], ss[i - 1]);
    }
  }
}
