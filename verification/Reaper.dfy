/**
 The child reaper of the guest agent as a step machine: Start and reap under one
 lock, the kernel's process table, SIGCHLD and the 16-slot signal channel.
 A pid is free again as soon as its zombie was collected.
 */
module Reaper {
  import opened Wrappers

  type Pid = nat
  type Id = nat

  datatype Status = Exited(code: nat) | Killed(signal: nat)

  /** What a process is to the agent: the n-th started one, or an orphan it adopted. */
  datatype Owner = Job(id: Id) | Orphan

  datatype Proc = Proc(owner: Owner, ended: Option<Status>)

  /** A Start that holds the lock, before and after the fork. */
  datatype Starter = NoStart | Forking | Forked(pid: Pid)

  /** The reaper goroutine. From Scanning to Leaving it holds the lock. */
  datatype Loop = Idle | Woken | Scanning | Collected(pid: Pid, status: Status, owner: Owner) | Leaving

  datatype World = World(
    procs: map<Pid, Proc>,
    waiters: map<Pid, Id>,
    buffers: map<Id, seq<Status>>,
    received: map<Id, seq<Status>>,
    next: Id,
    starter: Starter,
    loop: Loop,
    raised: bool,
    queued: nat,
    exits: map<Id, Status>)

  const SLOTS := 16
  const BUFFER := 1

  datatype Step =
    | LockStart
    | Fork(pid: Pid)
    | ForkFailed
    | Register
    | Adopt(pid: Pid)
    | Exit(pid: Pid, status: Status)
    | Raise
    | Deliver
    | Wake
    | LockReap
    | Collect(pid: Pid)
    | Dispatch
    | NoneLeft
    | UnlockReap
    | Wait(id: Id)

  predicate Zombie(w: World, pid: Pid) {
    pid in w.procs && w.procs[pid].ended.Some?
  }

  predicate ReaperHolds(w: World) {
    w.loop.Scanning? || w.loop.Collected? || w.loop.Leaving?
  }

  predicate Free(w: World) {
    w.starter.NoStart? && !ReaperHolds(w)
  }

  predicate Enabled(w: World, s: Step) {
    match s
    case LockStart => Free(w)
    case Fork(pid) => w.starter.Forking? && pid !in w.procs
    case ForkFailed => w.starter.Forking?
    case Register => w.starter.Forked?
    case Adopt(pid) => pid !in w.procs
    case Exit(pid, _) => pid in w.procs && w.procs[pid].ended.None?
    case Raise => true
    case Deliver => w.raised
    case Wake => w.loop.Idle? && 0 < w.queued
    case LockReap => w.loop.Woken? && Free(w)
    case Collect(pid) => w.loop.Scanning? && Zombie(w, pid)
    case Dispatch => w.loop.Collected? && !SendBlocks(w)
    case NoneLeft => w.loop.Scanning? && forall pid :: pid in w.procs ==> !Zombie(w, pid)
    case UnlockReap => w.loop.Leaving?
    case Wait(id) => id in w.buffers && w.buffers[id] != []
  }

  /** The send of the reaper would wait for room in the channel. */
  predicate SendBlocks(w: World) {
    && w.loop.Collected?
    && w.loop.pid in w.waiters
    && w.waiters[w.loop.pid] in w.buffers
    && |w.buffers[w.waiters[w.loop.pid]]| >= BUFFER
  }

  function Apply(w: World, s: Step): World
    requires Enabled(w, s)
  {
    match s
    case LockStart => w.(starter := Forking)
    case Fork(pid) => w.(procs := w.procs[pid := Proc(Job(w.next), None)], starter := Forked(pid))
    case ForkFailed => w.(starter := NoStart)
    case Register =>
      w.(waiters := w.waiters[w.starter.pid := w.next], buffers := w.buffers[w.next := []],
         received := w.received[w.next := []], next := w.next + 1, starter := NoStart)
    case Adopt(pid) => w.(procs := w.procs[pid := Proc(Orphan, None)])
    case Exit(pid, status) =>
      var p := w.procs[pid];
      w.(procs := w.procs[pid := p.(ended := Some(status))], raised := true,
         exits := if p.owner.Job? then w.exits[p.owner.id := status] else w.exits)
    case Raise => w.(raised := true)
    case Deliver => w.(raised := false, queued := if w.queued < SLOTS then w.queued + 1 else w.queued)
    case Wake => w.(loop := Woken, queued := w.queued - 1)
    case LockReap => w.(loop := Scanning)
    case Collect(pid) =>
      var p := w.procs[pid];
      w.(procs := w.procs - {pid}, loop := Collected(pid, p.ended.value, p.owner))
    case Dispatch =>
      if w.loop.pid in w.waiters then
        var id := w.waiters[w.loop.pid];
        var sent := (if id in w.buffers then w.buffers[id] else []) + [w.loop.status];
        w.(waiters := w.waiters - {w.loop.pid}, buffers := w.buffers[id := sent], loop := Scanning)
      else w.(loop := Scanning)
    case NoneLeft => w.(loop := Leaving)
    case UnlockReap => w.(loop := Idle)
    case Wait(id) =>
      var got := (if id in w.received then w.received[id] else []) + [w.buffers[id][0]];
      w.(buffers := w.buffers[id := w.buffers[id][1..]], received := w.received[id := got])
  }

  predicate Init(w: World) {
    w == World(map[], map[], map[], map[], 0, NoStart, Idle, false, 0, map[])
  }

  ghost predicate Run(ws: seq<World>, steps: seq<Step>) {
    && |ws| == |steps| + 1
    && Init(ws[0])
    && forall i :: 0 <= i < |steps| ==> Enabled(ws[i], steps[i]) && ws[i + 1] == Apply(ws[i], steps[i])
  }

  // The invariant

  /** What was ever sent on the channel of a started process. */
  function Sent(w: World, id: Id): seq<Status> {
    (if id in w.received then w.received[id] else []) + (if id in w.buffers then w.buffers[id] else [])
  }

  /** The started process still is in the process table, under this pid. */
  predicate At(w: World, id: Id, pid: Pid) {
    pid in w.procs && w.procs[pid].owner == Job(id)
  }

  /** The reaper collected the started process and has not sent its status yet. */
  predicate InHand(w: World, id: Id) {
    w.loop.Collected? && w.loop.owner == Job(id)
  }

  /** A process in the table: a started one is registered once its Start is over, and has been sent nothing. */
  predicate TableAt(w: World, pid: Pid)
    requires pid in w.procs
  {
    var p := w.procs[pid];
    p.owner.Job? ==>
      && Sent(w, p.owner.id) == []
      && !InHand(w, p.owner.id)
      && (if w.starter == Forked(pid) then p.owner.id == w.next
          else p.owner.id < w.next && pid in w.waiters && w.waiters[pid] == p.owner.id)
      && (if p.ended.Some? then p.owner.id in w.exits && w.exits[p.owner.id] == p.ended.value
          else p.owner.id !in w.exits)
  }

  /** A registered waiter is that of a process in the table, or of the one in the reaper's hand. */
  predicate WaiterAt(w: World, pid: Pid)
    requires pid in w.waiters
  {
    if w.loop.Collected? && w.loop.pid == pid then w.loop.owner == Job(w.waiters[pid])
    else At(w, w.waiters[pid], pid)
  }

  /** The status in the reaper's hand is that of its process, to which nothing was sent. */
  predicate HandOk(w: World) {
    w.loop.Collected? && w.loop.owner.Job? ==>
      var id := w.loop.owner.id;
      && id < w.next && Sent(w, id) == []
      && w.loop.pid in w.waiters && w.waiters[w.loop.pid] == id
      && id in w.exits && w.exits[id] == w.loop.status
  }

  predicate LockOk(w: World) {
    && (w.starter.NoStart? || !ReaperHolds(w))
    && (if w.starter.Forked? then At(w, w.next, w.starter.pid) && w.starter.pid !in w.waiters else w.next !in w.exits)
    && (forall id :: id in w.exits ==> id <= w.next)
    && (forall id :: id in w.buffers ==> id < w.next)
    && (forall id :: id in w.received ==> id < w.next)
  }

  /** A started process is in the table, in the reaper's hand, or has been sent its own status, once. */
  ghost predicate PlaceAt(w: World, id: Id) {
    || (exists pid :: At(w, id, pid))
    || InHand(w, id)
    || (id in w.exits && Sent(w, id) == [w.exits[id]])
  }

  /** A zombie has a signal on its way, or a reap that has not looked for the last time yet. */
  ghost predicate SignalOk(w: World) {
    && w.queued <= SLOTS
    && ((exists pid :: Zombie(w, pid)) ==>
          w.raised || 0 < w.queued || w.loop.Woken? || w.loop.Scanning? || w.loop.Collected?)
  }

  ghost predicate TableOk(w: World) {
    && (forall pid :: pid in w.procs ==> TableAt(w, pid))
    && (forall p: Pid, q: Pid, id: Id :: At(w, id, p) && At(w, id, q) ==> p == q)
  }

  ghost predicate WaitersOk(w: World) {
    forall pid :: pid in w.waiters ==> WaiterAt(w, pid)
  }

  ghost predicate PlacesOk(w: World) {
    forall id: Id :: id < w.next ==> PlaceAt(w, id)
  }

  ghost predicate Inv(w: World) {
    TableOk(w) && WaitersOk(w) && HandOk(w) && LockOk(w) && PlacesOk(w) && SignalOk(w)
  }

  lemma InitInv(w: World)
    requires Init(w)
    ensures Inv(w)
  {
  }

  // What a step does to the parts of the state

  /** Only Dispatch sends, and only to the waiter of the collected pid. */
  lemma SentAfter(w: World, s: Step, id: Id)
    requires Enabled(w, s) && LockOk(w)
    ensures Sent(Apply(w, s), id) == if SendsTo(w, s, id) then Sent(w, id) + [w.loop.status] else Sent(w, id)
  {
    hide Apply, Sent;
    match s
    case Wait(x) => SentWait(w, x, id);
    case Register => SentRegister(w, id);
    case Dispatch => SentDispatch(w, id);
    case _ =>
      ChannelsKept(w, s);
      SentSame(w, Apply(w, s), id);
  }

  lemma SentWait(w: World, x: Id, id: Id)
    requires Enabled(w, Wait(x))
    ensures Sent(Apply(w, Wait(x)), id) == Sent(w, id)
  {
    if x == id {
      assert w.buffers[id] == [w.buffers[id][0]] + w.buffers[id][1..];
    }
  }

  lemma SentRegister(w: World, id: Id)
    requires Enabled(w, Register) && LockOk(w)
    ensures Sent(Apply(w, Register), id) == Sent(w, id)
  {
  }

  lemma SentDispatch(w: World, id: Id)
    requires Enabled(w, Dispatch)
    ensures Sent(Apply(w, Dispatch), id) ==
              if SendsTo(w, Dispatch, id) then Sent(w, id) + [w.loop.status] else Sent(w, id)
  {
  }

  lemma SentSame(w: World, v: World, id: Id)
    requires w.buffers == v.buffers && w.received == v.received
    ensures Sent(w, id) == Sent(v, id)
  {
  }

  predicate SendsTo(w: World, s: Step, id: Id) {
    s.Dispatch? && w.loop.Collected? && w.loop.pid in w.waiters && w.waiters[w.loop.pid] == id
  }

  lemma ChannelsKept(w: World, s: Step)
    requires Enabled(w, s) && !(s.Wait? || s.Register? || s.Dispatch?)
    ensures Apply(w, s).buffers == w.buffers && Apply(w, s).received == w.received
  {
  }

  /** A started process leaves the table only into the reaper's hand. */
  lemma AtAfter(w: World, s: Step, id: Id, pid: Pid)
    requires Enabled(w, s) && At(w, id, pid)
    ensures if s == Collect(pid) then InHand(Apply(w, s), id) else At(Apply(w, s), id, pid)
  {
  }

  lemma AtBefore(w: World, s: Step, id: Id, pid: Pid)
    requires Enabled(w, s) && At(Apply(w, s), id, pid)
    ensures At(w, id, pid) || (s == Fork(pid) && id == w.next)
    ensures s != Collect(pid)
  {
  }

  lemma InHandAfter(w: World, s: Step, id: Id)
    requires Enabled(w, s)
    ensures InHand(Apply(w, s), id) <==> (if s.Collect? then At(w, id, s.pid) else InHand(w, id) && !s.Dispatch?)
  {
  }

  lemma ExitsAfter(w: World, s: Step, id: Id)
    requires Enabled(w, s) && !(s.Exit? && At(w, id, s.pid))
    ensures id in w.exits <==> id in Apply(w, s).exits
    ensures id in w.exits ==> Apply(w, s).exits[id] == w.exits[id]
  {
  }

  lemma WaitersAfter(w: World, s: Step, pid: Pid)
    requires Enabled(w, s)
    ensures var after := Apply(w, s).waiters;
            if s.Register? && w.starter == Forked(pid) then pid in after && after[pid] == w.next
            else if s.Dispatch? && w.loop.pid == pid then pid !in after
            else (pid in after <==> pid in w.waiters) && (pid in w.waiters ==> after[pid] == w.waiters[pid])
  {
    hide Apply;
    match s
    case Register => WaitersRegister(w);
    case Dispatch => WaitersDispatch(w);
    case _ => WaitersKept(w, s);
  }

  lemma WaitersRegister(w: World)
    requires Enabled(w, Register)
    ensures Apply(w, Register).waiters == w.waiters[w.starter.pid := w.next]
  {
  }

  lemma WaitersDispatch(w: World)
    requires Enabled(w, Dispatch)
    ensures Apply(w, Dispatch).waiters == w.waiters - {w.loop.pid}
  {
  }

  lemma WaitersKept(w: World, s: Step)
    requires Enabled(w, s) && !s.Register? && !s.Dispatch?
    ensures Apply(w, s).waiters == w.waiters
  {
  }

  lemma NextAfter(w: World, s: Step)
    requires Enabled(w, s)
    ensures Apply(w, s).next == if s.Register? then w.next + 1 else w.next
    ensures Apply(w, s).starter.Forked? <==> s.Fork? || (w.starter.Forked? && !s.Register?)
    ensures Apply(w, s).starter.Forked? ==> Apply(w, s).starter == if s.Fork? then Forked(s.pid) else w.starter
  {
  }

  lemma EndedAfter(w: World, s: Step, pid: Pid)
    requires Enabled(w, s) && pid in w.procs && pid in Apply(w, s).procs
    ensures Apply(w, s).procs[pid] ==
              if s.Exit? && s.pid == pid then w.procs[pid].(ended := Some(s.status)) else w.procs[pid]
    ensures s.Exit? && s.pid == pid && w.procs[pid].owner.Job? ==>
              w.procs[pid].owner.id in Apply(w, s).exits && Apply(w, s).exits[w.procs[pid].owner.id] == s.status
  {
  }

  lemma TableFacts(w: World, pid: Pid)
    requires TableOk(w) && pid in w.procs
    ensures TableAt(w, pid)
  {
  }

  lemma OnePid(w: World, id: Id, p: Pid, q: Pid)
    requires TableOk(w) && At(w, id, p) && At(w, id, q)
    ensures p == q
  {
  }

  lemma WaiterFacts(w: World, pid: Pid)
    requires WaitersOk(w) && pid in w.waiters
    ensures WaiterAt(w, pid)
  {
  }

  lemma StepTableAt(w: World, s: Step, pid: Pid)
    requires Inv(w) && Enabled(w, s) && pid in Apply(w, s).procs
    ensures TableAt(Apply(w, s), pid)
  {
    hide Apply, PlacesOk, SignalOk, TableOk, WaitersOk, Sent;
    var p := Apply(w, s).procs[pid];
    if p.owner.Job? {
      var id := p.owner.id;
      SentAfter(w, s, id);
      AtBefore(w, s, id, pid);
      InHandAfter(w, s, id);
      WaitersAfter(w, s, pid);
      NextAfter(w, s);
      if s.Dispatch? && w.loop.pid in w.waiters {
        WaiterFacts(w, w.loop.pid);
      }
      if At(w, id, pid) {
        TableFacts(w, pid);
        EndedAfter(w, s, pid);
        if (s.Exit? || s.Collect?) && At(w, id, s.pid) {
          OnePid(w, id, pid, s.pid);
        } else {
          ExitsAfter(w, s, id);
        }
      } else {
        NothingSent(w, id);
        ForkedAfter(w, pid);
      }
    }
  }

  lemma ForkedAfter(w: World, pid: Pid)
    requires Enabled(w, Fork(pid)) && w.next !in w.exits
    ensures Apply(w, Fork(pid)).procs[pid].ended.None? && w.next !in Apply(w, Fork(pid)).exits
  {
  }

  lemma NothingSent(w: World, id: Id)
    requires LockOk(w) && w.next <= id
    ensures Sent(w, id) == []
  {
  }

  lemma StepOnePid(w: World, s: Step, id: Id, p: Pid, q: Pid)
    requires Inv(w) && Enabled(w, s) && At(Apply(w, s), id, p) && At(Apply(w, s), id, q)
    ensures p == q
  {
    hide Apply, PlacesOk, SignalOk, TableOk, WaitersOk, Sent;
    AtBefore(w, s, id, p);
    AtBefore(w, s, id, q);
    if At(w, id, p) && At(w, id, q) {
      OnePid(w, id, p, q);
    } else if At(w, id, p) {
      TableFacts(w, p);
    } else if At(w, id, q) {
      TableFacts(w, q);
    }
  }

  lemma StepWaiterAt(w: World, s: Step, pid: Pid)
    requires Inv(w) && Enabled(w, s) && pid in Apply(w, s).waiters
    ensures WaiterAt(Apply(w, s), pid)
  {
    hide Apply, PlacesOk, SignalOk, TableOk, WaitersOk, Sent, HandOk;
    WaitersAfter(w, s, pid);
    LoopAfter(w, s);
    if s.Register? && w.starter == Forked(pid) {
      AtAfter(w, s, w.next, pid);
    } else {
      WaiterFacts(w, pid);
      if At(w, w.waiters[pid], pid) {
        AtAfter(w, s, w.waiters[pid], pid);
      }
    }
  }

  lemma LoopAfter(w: World, s: Step)
    requires Enabled(w, s)
    ensures var after := Apply(w, s).loop;
            if s.Collect? then after == Collected(s.pid, w.procs[s.pid].ended.value, w.procs[s.pid].owner)
            else if s.Dispatch? then after == Scanning
            else if w.loop.Collected? then after == w.loop
            else !after.Collected?
  {
  }

  lemma StepHand(w: World, s: Step)
    requires Inv(w) && Enabled(w, s)
    ensures HandOk(Apply(w, s))
  {
    hide Apply, PlacesOk, SignalOk, TableOk, WaitersOk, Sent;
    LoopAfter(w, s);
    NextAfter(w, s);
    var after := Apply(w, s);
    if after.loop.Collected? && after.loop.owner.Job? {
      var id := after.loop.owner.id;
      SentAfter(w, s, id);
      WaitersAfter(w, s, after.loop.pid);
      if s.Collect? {
        TableFacts(w, s.pid);
      } else if s.Exit? {
        TableFacts(w, s.pid);
      }
      ExitsAfter(w, s, id);
    }
  }

  lemma StepLock(w: World, s: Step)
    requires Inv(w) && Enabled(w, s)
    ensures LockOk(Apply(w, s))
  {
    hide PlacesOk, SignalOk, TableOk, WaitersOk, Sent, HandOk, SendBlocks;
    if s.Fork? && s.pid in w.waiters {
      WaiterFacts(w, s.pid);
    } else if s.Exit? {
      TableFacts(w, s.pid);
    } else if s.Dispatch? && w.loop.pid in w.waiters {
      WaiterFacts(w, w.loop.pid);
      HandFacts(w);
    }
  }

  lemma HandFacts(w: World)
    requires HandOk(w) && w.loop.Collected? && w.loop.owner.Job?
    ensures w.loop.owner.id < w.next
  {
  }

  lemma StepSignal(w: World, s: Step)
    requires SignalOk(w) && Enabled(w, s)
    ensures SignalOk(Apply(w, s))
  {
    hide Zombie;
    QueueAfter(w, s);
    if pid :| Zombie(Apply(w, s), pid) {
      ZombieBefore(w, s, pid);
      if s.NoneLeft? {
        NoZombie(w, pid);
      }
    }
  }

  lemma ZombieBefore(w: World, s: Step, pid: Pid)
    requires Enabled(w, s) && Zombie(Apply(w, s), pid)
    ensures Zombie(w, pid) || s.Exit?
  {
  }

  lemma NoZombie(w: World, pid: Pid)
    requires Enabled(w, NoneLeft)
    ensures !Zombie(w, pid)
  {
  }

  lemma QueueAfter(w: World, s: Step)
    requires Enabled(w, s)
    ensures Apply(w, s).queued ==
              if s.Deliver? && w.queued < SLOTS then w.queued + 1 else if s.Wake? then w.queued - 1 else w.queued
    ensures Apply(w, s).raised <==> s.Exit? || s.Raise? || (w.raised && !s.Deliver?)
  {
  }

  lemma StepPlaceAt(w: World, s: Step, id: Id)
    requires Inv(w) && Enabled(w, s) && id < Apply(w, s).next
    ensures PlaceAt(Apply(w, s), id)
  {
    hide Apply, SignalOk, TableOk, WaitersOk, Sent, At;
    SentAfter(w, s, id);
    NextAfter(w, s);
    InHandAfter(w, s, id);
    if s.Register? && id == w.next {
      AtAfter(w, s, id, w.starter.pid);
    } else {
      assert PlaceAt(w, id);
      if pid :| At(w, id, pid) {
        AtAfter(w, s, id, pid);
      } else {
        ExitsAfter(w, s, id);
        if !InHand(w, id) && SendsTo(w, s, id) {
          WaiterFacts(w, w.loop.pid);
        }
      }
    }
  }

  lemma StepInv(w: World, s: Step)
    requires Inv(w) && Enabled(w, s)
    ensures Inv(Apply(w, s))
  {
    hide Apply, Enabled, TableAt, WaiterAt, PlaceAt, HandOk, LockOk, SignalOk, At;
    forall pid | pid in Apply(w, s).procs ensures TableAt(Apply(w, s), pid) { StepTableAt(w, s, pid); }
    forall p: Pid, q: Pid, id: Id | At(Apply(w, s), id, p) && At(Apply(w, s), id, q) ensures p == q {
      StepOnePid(w, s, id, p, q);
    }
    forall pid | pid in Apply(w, s).waiters ensures WaiterAt(Apply(w, s), pid) { StepWaiterAt(w, s, pid); }
    forall id: Id | id < Apply(w, s).next ensures PlaceAt(Apply(w, s), id) { StepPlaceAt(w, s, id); }
    StepHand(w, s);
    StepLock(w, s);
    StepSignal(w, s);
  }

  lemma {:induction false} RunInv(ws: seq<World>, steps: seq<Step>, n: nat)
    requires Run(ws, steps) && n < |ws|
    ensures Inv(ws[n])
  {
    hide Inv, Apply, Enabled, Init;
    if n == 0 {
      InitInv(ws[0]);
    } else {
      RunInv(ws, steps, n - 1);
      assert Enabled(ws[n - 1], steps[n - 1]) && ws[n - 1 + 1] == Apply(ws[n - 1], steps[n - 1]);
      StepInv(ws[n - 1], steps[n - 1]);
    }
  }

  // What the supervisor promises

  /** In every run each started process is sent its own exit status, at most once, and only after it ended. */
  lemma OwnStatusOnce(ws: seq<World>, steps: seq<Step>, n: nat, id: Id)
    requires Run(ws, steps) && n < |ws|
    ensures Sent(ws[n], id) == [] || (id in ws[n].exits && Sent(ws[n], id) == [ws[n].exits[id]])
  {
    hide Run;
    RunInv(ws, steps, n);
    var w := ws[n];
    if id < w.next {
      assert PlaceAt(w, id);
    } else {
      NothingSent(w, id);
    }
  }

  /** The exit status of a started process is fixed when it ends, also when its pid is used again. */
  lemma ExitOnce(ws: seq<World>, steps: seq<Step>, n: nat, pid: Pid, status: Status)
    requires Run(ws, steps) && n < |steps| && steps[n] == Exit(pid, status)
    requires pid in ws[n].procs && ws[n].procs[pid].owner.Job?
    ensures ws[n].procs[pid].owner.id !in ws[n].exits
    ensures Sent(ws[n], ws[n].procs[pid].owner.id) == []
  {
    hide Apply;
    RunInv(ws, steps, n);
    assert Enabled(ws[n], steps[n]);
    assert TableAt(ws[n], pid);
  }

  /** The reaper sends on a channel of one slot while it holds the lock, and never has to wait. */
  lemma SendNeverBlocks(ws: seq<World>, steps: seq<Step>, n: nat)
    requires Run(ws, steps) && n < |ws|
    ensures !SendBlocks(ws[n])
    ensures var w := ws[n];
            w.loop.Collected? && w.loop.pid in w.waiters && w.waiters[w.loop.pid] in w.buffers ==>
              w.buffers[w.waiters[w.loop.pid]] == []
  {
    hide Run;
    RunInv(ws, steps, n);
    SendHasRoom(ws[n]);
  }

  lemma SendHasRoom(w: World)
    requires Inv(w)
    ensures !SendBlocks(w)
    ensures w.loop.Collected? && w.loop.pid in w.waiters && w.waiters[w.loop.pid] in w.buffers ==>
              w.buffers[w.waiters[w.loop.pid]] == []
  {
    if w.loop.Collected? && w.loop.pid in w.waiters {
      WaiterFacts(w, w.loop.pid);
    }
  }

  /** The status of an orphan is dropped: no channel and no waiter changes. */
  lemma OrphanDropped(ws: seq<World>, steps: seq<Step>, n: nat, id: Id)
    requires Run(ws, steps) && n < |steps| && steps[n].Dispatch?
    requires ws[n].loop.Collected? && ws[n].loop.owner.Orphan?
    ensures Sent(ws[n + 1], id) == Sent(ws[n], id) && ws[n + 1].waiters == ws[n].waiters
  {
    RunInv(ws, steps, n);
    var w := ws[n];
    assert Enabled(w, steps[n]) && ws[n + 1] == Apply(w, steps[n]);
    if w.loop.pid in w.waiters {
      WaiterFacts(w, w.loop.pid);
    }
    SentAfter(w, steps[n], id);
  }

  // Nothing is left behind

  /** A step of the supervisor or of the signal path, not of the processes or of a new Start. */
  predicate Internal(s: Step) {
    s.Fork? || s.ForkFailed? || s.Register? || s.Deliver? || s.Wake? || s.LockReap? || s.Collect? ||
    s.Dispatch? || s.NoneLeft? || s.UnlockReap?
  }

  ghost predicate Stuck(w: World) {
    forall s :: Internal(s) ==> !Enabled(w, s)
  }

  /** With a zombie in the table, some step of the supervisor can be taken. */
  lemma ZombieMoves(w: World, pid: Pid) returns (s: Step)
    requires Inv(w) && Zombie(w, pid)
    ensures Internal(s) && Enabled(w, s)
  {
    if w.starter.Forking? {
      s := ForkFailed;
    } else if w.starter.Forked? {
      s := Register;
    } else if w.loop.Scanning? {
      s := Collect(pid);
    } else if w.loop.Collected? {
      s := Dispatch;
      if w.loop.pid in w.waiters {
        WaiterFacts(w, w.loop.pid);
      }
    } else if w.loop.Leaving? {
      s := UnlockReap;
    } else if w.loop.Woken? {
      s := LockReap;
    } else if w.raised {
      s := Deliver;
    } else {
      s := Wake;
    }
  }

  ghost function Zombies(w: World): set<Pid> {
    set pid | pid in w.procs && Zombie(w, pid)
  }

  function StarterRank(s: Starter): nat {
    match s case NoStart => 0 case Forked(_) => 1 case Forking => 2
  }

  function LoopRank(l: Loop): nat {
    match l case Idle => 0 case Leaving => 1 case Scanning => 2 case Woken => 3 case Collected(_, _, _) => 3
  }

  /** How many steps the supervisor can still take on its own. */
  ghost function Rank(w: World): nat {
    StarterRank(w.starter) + LoopRank(w.loop) + 2 * |Zombies(w)| + 4 * w.queued + if w.raised then 5 else 0
  }

  lemma ZombiesAfter(w: World, s: Step)
    requires Internal(s) && Enabled(w, s)
    ensures |Zombies(Apply(w, s))| == if s.Collect? then |Zombies(w)| - 1 else |Zombies(w)|
  {
    if s.Collect? {
      assert Zombies(Apply(w, s)) == Zombies(w) - {s.pid};
      assert s.pid in Zombies(w);
    } else {
      assert Zombies(Apply(w, s)) == Zombies(w);
    }
  }

  lemma InternalRanks(w: World, s: Step)
    requires Internal(s) && Enabled(w, s)
    ensures Rank(Apply(w, s)) < Rank(w)
  {
    hide Zombies, SendBlocks;
    ZombiesAfter(w, s);
  }

  /** From any state of any run the supervisor takes finitely many steps of its own. */
  lemma {:induction false} OwnStepsEnd(ws: seq<World>, steps: seq<Step>, m: nat, n: nat)
    requires Run(ws, steps) && m <= n < |ws|
    requires forall i :: m <= i < n ==> Internal(steps[i])
    ensures n - m + Rank(ws[n]) <= Rank(ws[m])
  {
    hide Apply, Enabled, Rank, Internal, Init;
    if m < n {
      OwnStepsEnd(ws, steps, m, n - 1);
      assert Enabled(ws[n - 1], steps[n - 1]) && ws[n - 1 + 1] == Apply(ws[n - 1], steps[n - 1]);
      InternalRanks(ws[n - 1], steps[n - 1]);
    }
  }

  lemma EndedIsZombie(w: World, id: Id, pid: Pid)
    requires TableOk(w) && id in w.exits && At(w, id, pid)
    ensures Zombie(w, pid)
  {
    TableFacts(w, pid);
  }

  /** Without zombies, and with nothing in hand, all that ended were sent their status. */
  lemma AllDelivered(w: World, id: Id)
    requires Inv(w) && id in w.exits && !w.loop.Collected? && !w.starter.Forked?
    requires forall pid :: !Zombie(w, pid)
    ensures Sent(w, id) == [w.exits[id]]
  {
    hide Sent;
    assert PlaceAt(w, id);
    if pid :| At(w, id, pid) {
      EndedIsZombie(w, id, pid);
    }
  }

  /**
   When the supervisor has no step left to take, no zombie remains, and each
   started process that ended has been sent its status: signals that the full
   channel dropped lose nothing.
   */
  lemma NothingLeftBehind(ws: seq<World>, steps: seq<Step>, n: nat)
    requires Run(ws, steps) && n < |ws| && Stuck(ws[n])
    ensures forall pid :: !Zombie(ws[n], pid)
    ensures forall id :: id in ws[n].exits ==> Sent(ws[n], id) == [ws[n].exits[id]]
  {
    hide Run, Inv, Sent;
    var w := ws[n];
    RunInv(ws, steps, n);
    SendNeverBlocks(ws, steps, n);
    forall pid ensures !Zombie(w, pid) {
      if Zombie(w, pid) {
        var s := ZombieMoves(w, pid);
        assert false;
      }
    }
    assert !Enabled(w, Register) && !Enabled(w, Dispatch);
    forall id | id in w.exits ensures Sent(w, id) == [w.exits[id]] {
      AllDelivered(w, id);
    }
  }

  /** The exit code as a shell reports it. */
  function WaitCode(status: Status): nat {
    match status case Exited(code) => code case Killed(signal) => 128 + signal
  }

  predicate Answered(w: World, id: Id) {
    id in w.received && w.received[id] != []
  }

  lemma AnsweredStep(w: World, s: Step, id: Id)
    requires Enabled(w, s) && LockOk(w) && (Answered(w, id) || s == Wait(id))
    ensures Answered(Apply(w, s), id)
  {
  }

  lemma {:induction false} StaysAnswered(ws: seq<World>, steps: seq<Step>, n: nat, k: nat, id: Id)
    requires Run(ws, steps) && n <= k < |ws| && Answered(ws[n], id)
    ensures Answered(ws[k], id)
  {
    hide Apply, Enabled, Answered, Init;
    if n < k {
      StaysAnswered(ws, steps, n, k - 1, id);
      RunInv(ws, steps, k - 1);
      assert Enabled(ws[k - 1], steps[k - 1]) && ws[k - 1 + 1] == Apply(ws[k - 1], steps[k - 1]);
      AnsweredStep(ws[k - 1], steps[k - 1], id);
    }
  }

  /** Before a wait on a started process its channel holds the status of its own exit, and no wait came before. */
  lemma WaitReturnsOwn(ws: seq<World>, steps: seq<Step>, n: nat, id: Id)
    requires Run(ws, steps) && n < |steps| && steps[n] == Wait(id)
    ensures id in ws[n].exits && id in ws[n].buffers && ws[n].buffers[id] == [ws[n].exits[id]]
    ensures !Answered(ws[n], id)
  {
    hide Apply;
    assert Enabled(ws[n], steps[n]);
    RunInv(ws, steps, n);
    OwnBuffer(ws[n], id);
  }

  /** Each started process is waited for with an answer at most once. */
  lemma OneAnswer(ws: seq<World>, steps: seq<Step>, m: nat, n: nat, id: Id)
    requires Run(ws, steps) && m < |steps| && n < |steps| && steps[m] == Wait(id) && steps[n] == Wait(id)
    ensures m == n
  {
    hide Apply, Enabled, Answered, Init;
    assert Enabled(ws[m], steps[m]) && ws[m + 1] == Apply(ws[m], steps[m]);
    assert Enabled(ws[n], steps[n]) && ws[n + 1] == Apply(ws[n], steps[n]);
    RunInv(ws, steps, m);
    RunInv(ws, steps, n);
    AnsweredStep(ws[m], steps[m], id);
    AnsweredStep(ws[n], steps[n], id);
    WaitReturnsOwn(ws, steps, m, id);
    WaitReturnsOwn(ws, steps, n, id);
    if m < n {
      StaysAnswered(ws, steps, m + 1, n, id);
    } else if n < m {
      StaysAnswered(ws, steps, n + 1, m, id);
    }
  }

  // The supervisor itself

  ghost predicate Reaches(w: World, steps: seq<Step>, v: World)
    decreases |steps|
  {
    if steps == [] then w == v else Enabled(w, steps[0]) && Reaches(Apply(w, steps[0]), steps[1..], v)
  }

  lemma {:induction false} ReachesOne(w: World, steps: seq<Step>, v: World, s: Step)
    requires Reaches(w, steps, v) && Enabled(v, s)
    ensures Reaches(w, steps + [s], Apply(v, s))
    decreases |steps|
  {
    hide Apply, Enabled;
    if steps != [] {
      ReachesOne(Apply(w, steps[0]), steps[1..], v, s);
      assert (steps + [s])[1..] == steps[1..] + [s];
    }
  }

  /** A run of the machine from one state to another, within the invariant. */
  ghost predicate Traced(w: World, steps: seq<Step>, v: World) {
    Reaches(w, steps, v) && Inv(v)
  }

  lemma TracedStep(w: World, steps: seq<Step>, v: World, s: Step)
    requires Traced(w, steps, v) && Enabled(v, s)
    ensures Traced(w, steps + [s], Apply(v, s))
  {
    hide Reaches, Inv, Enabled, Apply;
    ReachesOne(w, steps, v, s);
    StepInv(v, s);
  }

  class Supervisor {
    var procs: map<Pid, Proc>
    var waiters: map<Pid, Id>
    var buffers: map<Id, seq<Status>>
    var received: map<Id, seq<Status>>
    var next: Id
    var raised: bool
    var queued: nat
    ghost var starter: Starter
    ghost var loop: Loop
    ghost var exits: map<Id, Status>

    ghost function State(): World
      reads this
    {
      World(procs, waiters, buffers, received, next, starter, loop, raised, queued, exits)
    }

    constructor ()
      ensures Init(State())
    {
      procs, waiters, buffers, received, next := map[], map[], map[], map[], 0;
      raised, queued, starter, loop, exits := false, 0, NoStart, Idle, map[];
    }

    /** The kernel gives out some zombie, or says that there is none. */
    method Wait4() returns (r: Option<(Pid, Status)>)
      requires loop.Scanning?
      modifies this`procs, this`loop
      ensures r.None? ==> Enabled(old(State()), NoneLeft) && State() == Apply(old(State()), NoneLeft)
      ensures r.Some? ==>
                Enabled(old(State()), Collect(r.value.0)) && State() == Apply(old(State()), Collect(r.value.0))
      ensures r.Some? ==> loop.Collected? && loop.pid == r.value.0 && loop.status == r.value.1
      ensures r.Some? ==> procs.Keys < old(procs.Keys)
    {
      if pid :| pid in procs && procs[pid].ended.Some? {
        var p := procs[pid];
        loop := Collected(pid, p.ended.value, p.owner);
        procs := procs - {pid};
        assert pid in old(procs.Keys);
        return Some((pid, p.ended.value));
      }
      loop := Leaving;
      return None;
    }

    /** Hands the collected status to its waiter, if it has one. */
    method HandOver(pid: Pid, status: Status)
      requires loop.Collected? && loop.pid == pid && loop.status == status && Enabled(State(), Dispatch)
      modifies this`waiters, this`buffers, this`loop
      ensures State() == Apply(old(State()), Dispatch)
    {
      if pid in waiters {
        var id := waiters[pid];
        waiters := waiters - {pid};
        buffers := buffers[id := (if id in buffers then buffers[id] else []) + [status]];
      }
      loop := Scanning;
    }

    /** One round of the loop. The send has room. */
    method ReapOne(ghost w: World, ghost steps: seq<Step>) returns (more: bool, ghost after: seq<Step>)
      requires Traced(w, steps, State()) && loop == Scanning
      modifies this`procs, this`waiters, this`buffers, this`loop
      ensures Traced(w, after, State())
      ensures more ==> loop == Scanning && procs.Keys < old(procs.Keys)
      ensures !more ==> loop == Leaving && forall pid :: !Zombie(State(), pid)
    {
      hide Traced, Apply;
      ghost var v := State();
      var r := Wait4();
      if r.None? {
        TracedStep(w, steps, v, NoneLeft);
        LeavingAfter(v);
        return false, steps + [NoneLeft];
      }
      var (pid, status) := r.value;
      TracedStep(w, steps, v, Collect(pid));
      NoBlock(w, steps + [Collect(pid)], State());
      v := State();
      HandOver(pid, status);
      TracedStep(w, steps + [Collect(pid)], v, Dispatch);
      LoopAfter(v, Dispatch);
      return true, steps + [Collect(pid)] + [Dispatch];
    }

    /**
     A whole reap: a run of the machine that never waits for room in a channel,
     after which no zombie is left and all that ended were sent their own status.
     */
    method Reap() returns (ghost steps: seq<Step>)
      requires Inv(State()) && loop == Woken && starter == NoStart
      modifies this`procs, this`waiters, this`buffers, this`loop
      ensures Traced(old(State()), steps, State()) && loop == Idle
      ensures forall pid :: !Zombie(State(), pid)
      ensures forall id :: id in exits ==> Sent(State(), id) == [exits[id]]
    {
      hide Traced, Inv, Sent, Apply;
      ghost var w := State();
      steps := [LockReap];
      Locked(w);
      loop := Scanning;
      var more := true;
      while more
        invariant Traced(w, steps, State())
        invariant more ==> loop == Scanning
        invariant !more ==> loop == Leaving && forall pid :: !Zombie(State(), pid)
        decreases more, procs.Keys
      {
        more, steps := ReapOne(w, steps);
      }
      Unlocked(w, steps, State());
      loop := Idle;
      steps := steps + [UnlockReap];
      forall id | id in exits ensures Sent(State(), id) == [exits[id]] {
        AllDelivered(State(), id);
      }
    }

    /** A start: the fork and the registration under one lock, or nothing at all. */
    method Start(forked: Option<Pid>) returns (id: Option<Id>, ghost steps: seq<Step>)
      requires Inv(State()) && Enabled(State(), LockStart) && (forked.Some? ==> forked.value !in procs)
      modifies this`procs, this`waiters, this`buffers, this`received, this`next
      ensures Traced(old(State()), steps, State())
      ensures forked.None? ==> id.None? && State() == old(State())
      ensures forked.Some? ==>
                id == Some(old(next)) && At(State(), id.value, forked.value) && Sent(State(), id.value) == []
    {
      hide Traced, Inv, Sent, Apply;
      Started(State(), forked);
      if forked.None? {
        return None, [LockStart, ForkFailed];
      }
      var pid := forked.value;
      procs := procs[pid := Proc(Job(next), None)];
      waiters := waiters[pid := next];
      buffers := buffers[next := []];
      received := received[next := []];
      id := Some(next);
      next := next + 1;
      steps := [LockStart, Fork(pid), Register];
    }

    /** A wait that finds a status: it is the one of the process, and it is taken. */
    method Wait(id: Id) returns (code: nat)
      requires Inv(State()) && Enabled(State(), Step.Wait(id))
      modifies this`buffers, this`received
      ensures id in exits
      ensures match exits[id] case Exited(c) => code == c case Killed(signal) => code == 128 + signal
      ensures State() == Apply(old(State()), Step.Wait(id)) && Inv(State())
    {
      hide Inv, Sent;
      OwnBuffer(State(), id);
      StepInv(State(), Step.Wait(id));
      var status := buffers[id][0];
      received := received[id := (if id in received then received[id] else []) + [status]];
      buffers := buffers[id := buffers[id][1..]];
      code := WaitCode(status);
    }
  }

  lemma LeavingAfter(w: World)
    requires Enabled(w, NoneLeft)
    ensures var v := Apply(w, NoneLeft);
            v.loop == Leaving && forall pid :: !Zombie(v, pid)
  {
  }

  lemma Locked(w: World)
    requires Inv(w) && Enabled(w, LockReap)
    ensures Traced(w, [LockReap], w.(loop := Scanning))
  {
    hide Inv, Enabled;
    StepInv(w, LockReap);
  }

  lemma Unlocked(w: World, steps: seq<Step>, v: World)
    requires Traced(w, steps, v) && v.loop == Leaving && forall pid :: !Zombie(v, pid)
    ensures Traced(w, steps + [UnlockReap], v.(loop := Idle)) && Inv(v.(loop := Idle))
    ensures forall pid :: !Zombie(v.(loop := Idle), pid)
  {
    hide Inv, Reaches;
    assert forall pid :: Zombie(v.(loop := Idle), pid) <==> Zombie(v, pid);
    TracedStep(w, steps, v, UnlockReap);
  }

  /** The steps of a Start add up to the fork and the registration. */
  lemma Started(w: World, forked: Option<Pid>)
    requires Inv(w) && Enabled(w, LockStart) && (forked.Some? ==> forked.value !in w.procs)
    ensures forked.None? ==> Traced(w, [LockStart, ForkFailed], w)
    ensures forked.Some? ==>
              var pid := forked.value;
              var v := w.(procs := w.procs[pid := Proc(Job(w.next), None)], waiters := w.waiters[pid := w.next],
                          buffers := w.buffers[w.next := []], received := w.received[w.next := []], next := w.next + 1);
              Traced(w, [LockStart, Fork(pid), Register], v) && Sent(v, w.next) == []
  {
    hide Inv, Reaches;
    var locked := w.(starter := Forking);
    NoSteps(w);
    TracedStep(w, [], w, LockStart);
    assert [] + [LockStart] == [LockStart];
    if forked.None? {
      TracedStep(w, [LockStart], locked, ForkFailed);
      assert [LockStart] + [ForkFailed] == [LockStart, ForkFailed];
    } else {
      var pid := forked.value;
      var born := locked.(procs := w.procs[pid := Proc(Job(w.next), None)], starter := Forked(pid));
      TracedStep(w, [LockStart], locked, Fork(pid));
      assert [LockStart] + [Fork(pid)] == [LockStart, Fork(pid)];
      TracedStep(w, [LockStart, Fork(pid)], born, Register);
      assert [LockStart, Fork(pid)] + [Register] == [LockStart, Fork(pid), Register];
    }
  }

  lemma NoSteps(w: World)
    ensures Reaches(w, [], w)
  {
  }

  lemma NoBlock(w: World, steps: seq<Step>, v: World)
    requires Traced(w, steps, v)
    ensures !SendBlocks(v)
  {
    SendHasRoom(v);
  }

  lemma OwnBuffer(w: World, id: Id)
    requires Inv(w) && Enabled(w, Wait(id))
    ensures id in w.exits && w.buffers[id] == [w.exits[id]] && !Answered(w, id)
  {
    assert PlaceAt(w, id);
    if pid :| At(w, id, pid) {
      TableFacts(w, pid);
    }
  }
}
