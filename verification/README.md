# A verified model of setec

Setec is a Kubernetes operator that runs Sandboxes in Firecracker machines. This
project models the parts of it whose behaviour is hardest to see from the code,
and proves what they promise for every input and every run.

| file | what it models |
|---|---|
| `PrefixTree.dfy`, `Netip.dfy`, `Exemptions.dfy`, `EgressPolicy.dfy`, `EgressMeaning.dfy` | the egress policy compiler: blocks of addresses as paths in a binary tree, prefixes as bytes, the subtraction of class exemptions from the reserved list, and the compilation of a network posture to NetworkPolicy rules, with the set of packets that the rules admit, and what the declarations mean |
| `Checkpoint.dfy`, `CheckpointLaws.dfy`, `CheckpointEffects.dfy`, `SessionController.dfy` | the session checkpoint protocol as a step machine over the Sandbox status, its Pod, the cached copy of the Pod and the checkpoint store; what every run of it keeps; what each step does, told from its inputs; and the reconciler that takes those steps |
| `LogResume.dfy` | the log relay and its resumption after a broken source |
| `Reaper.dfy` | the child reaper of the guest agent, with its lock, the kernel's process table and lossy SIGCHLD |
| `Bytes.dfy`, `ExecFrames.dfy` | the exec stream: frames, producers under one write lock, the demultiplexer |
| `Entropy.dfy` | the reseed exchange after a snapshot load |
| `LauncherRun.dfy` | one run of the launcher over every pattern of failures |
| `Names.dfy`, `ResolverCache.dfy` | the caching DNS resolver under concurrent calls |
| `WarmPool.dfy` | the warm pool image list under two optimistic-lock writers |
| `TarNames.dfy` | the tar path normaliser and the filter of the disk builder |
| `Wrappers.dfy` | the option type of them all |

`dafny verify dfyconfig.toml` checks the whole project.

## How to read it

Loops and updates of the source are methods with loops and classes with fields;
each is proved against a function or predicate, and the laws are proved about
those. Concurrent parts are step machines: a state, a `Step` datatype, `Enabled`
and `Apply`, an invariant kept by every step, and theorems about every run. What
a call to the cluster, the kernel, the network or the clock returns is a
parameter or a field of a step, so a theorem holds for all of its outcomes.

Strings that the source parses with a library are modelled by the result of the
parse: `Bad` or `Text(prefix)` for a CIDR, `BadIp`, `Ip(addr)` or `Zoned(addr)` for
a resolver, a stamped or plain line for a log line. Addresses are byte sequences of length 4
or 16, and `Unmap` is modelled, so IPv4-mapped addresses (section 2.5.5.2 of RFC
4291) are not excluded; a prefix is an address and a length as in section 3.1 of
RFC 4632 and section 2.3 of RFC 4291.

## Where the code does not do what it says

- **Restoring a checkpoint at most once.** The comment at
  `internal/controller/session_checkpoint.go:498-504` says that a restore attempt
  always consumes the checkpoint. The code returns before it does so when the
  delete of the refused or unfilled Pod fails
  (`internal/controller/session_checkpoint.go:546-556`).
  `CheckpointLaws.LoadsExact` counts the loads exactly, and
  `CheckpointLaws.ReloadIff` says when there can be one more: exactly when the
  restore had to delete the Pod and could not. `CheckpointLaws.DoubleLoadInstance`
  is a run that loads one checkpoint twice.
- **A checkpoint never loads into the Pod that wrote it**
  (`internal/controller/session_checkpoint.go:304-314`). The test compares the
  cached Pod with the recorded UID, and passes when no UID could be read
  (`internal/controller/session_checkpoint.go:724-735`).
  `CheckpointLaws.RestorableIff` is the exact condition for a suspended session:
  its UID is not recorded and the cache still shows the Pod running.
  `CheckpointLaws.WriterLoadInstance` is a run to that load.
- **A suspended session is held until it resumes**
  (`internal/controller/sandbox_controller.go:810-822`). `holdingSuspend` looks at
  the mark and the deletion of the cached Pod; a cache from before both lets the
  status be derived from it, and a new Pod follows. `CheckpointLaws.FlipsIff` is
  the exact condition on the cache, `CheckpointLaws.RestingRun` the same over
  runs, `CheckpointLaws.FlippedInstance` a run in which a session that is asked to
  stay suspended gets a second Pod.
- **A refused Pod ends with its checkpoint.** `deleteSessionPod` reports success
  when it could not read the Pod
  (`internal/controller/session_checkpoint.go:662-675`), and the restore then
  consumes the checkpoint. `CheckpointLaws.RefusedPodEnds` says exactly when the
  Pod does end.
- **Reserved addresses are never reachable.** The resolver split tests the
  unmapped address of a resolver but writes the configured spelling into the DNS
  rule (`internal/netpol/generator.go:443-457`), and a resolver with an IPv6 zone
  is inside no prefix, while the rule drops the zone
  (`internal/netpol/generator.go:921-928`). `EgressPolicy.ReservedNeverAdmitted`
  gives the exact condition on the configured resolvers;
  `EgressPolicy.MappedResolverInstance` and `EgressPolicy.ZonedResolverInstance`
  are configurations that start, compile and fail it.
- **Exemptions only widen.** A class exemption that takes away the last reserved
  block of an address family withdraws every non-DNS block of that family
  (`internal/netpol/generator.go:950-977`). `EgressPolicy.WideningExact` is the
  exact condition, `EgressPolicy.WithdrawnInstance` an instance.
- **Log resume never duplicates.** `LogResume.ResumeExactIff` is the exact
  condition: the first pass must not open inside the timestamp group in which it
  broke (a `tail_lines` window can), and if it broke before its first stamped line
  it must have opened at the top of the log, because the re-read then drops the
  `tail_lines` window. `LogResume.DuplicatedInstance` and
  `LogResume.WholeLogInstance` are the two cases.
- **A warm pool stamp is never lost.** `WarmPool.KeptStep` lists exactly the writes
  that lose one: a computed list with no image, which is nil and clears the pool
  (`internal/controller/warm_pool.go:112`, `401-404`); a new image on a full list
  whose first oldest entry is the stamped one; and a stamp by a Sandbox whose clock
  reading is older. `WarmPool.ClearedInstance`, `WarmPool.EvictedInstance` and
  `WarmPool.TurnedBackInstance` show each.
- **A loaded machine is confirmed before it is connected.** This holds when
  `AfterStart` is set, as `cmd/setec-launcher/main.go:62` does; a nil `AfterStart`
  confirms nothing (`internal/launcher/run.go:181`). `LauncherRun.ConnectsMeans` is
  the exact condition, `LauncherRun.UnconfirmedInstance` an instance.
- **Nothing remains of a run.** Run always calls Leave after a join and Stop for a
  machine that is still there, but only reports a failed Leave and ignores a failed
  Stop (`internal/launcher/run.go:117-165`). `LauncherRun.NothingRemains` says
  exactly when the join and the machine are gone.

## Model

| member | source | states |
|---|---|---|
| PrefixTree.RemainderExact | internal/netpol/generator.go:995-1061 | an address is in some piece left of a reserved block exactly when it is in the block and in no exemption |
| PrefixTree.RemainderCanonical | internal/netpol/generator.go:1036-1061 | the pieces are exactly the maximal blocks that hold only addresses to be kept |
| PrefixTree.RemainderMaximal | internal/netpol/generator.go:1036-1061 | the same by a local test on the block and its parent |
| PrefixTree.RemainderDisjoint | internal/netpol/generator.go:1036-1061 | no two pieces overlap |
| PrefixTree.RemainderMinimal | internal/netpol/generator.go:987-990 | no list of blocks with the same addresses is shorter |
| PrefixTree.RemainderOrder | internal/netpol/generator.go:1017-1020 | the pieces do not depend on the order or repetition of the exemptions |
| PrefixTree.SiblingsMembers | internal/netpol/generator.go:1044-1057 | the siblings of a descent are exactly the blocks that leave the path to the hole by one bit |
| PrefixTree.CutSound | internal/netpol/generator.go:1036-1061 | a piece cut from a maximal block is maximal for the larger list of holes |
| PrefixTree.CutComplete | internal/netpol/generator.go:1036-1061 | every maximal block for the larger list of holes is cut from a maximal block for the smaller one |
| Netip.MaskedNet | internal/netpol/generator.go:1015 | masking clears exactly the bits after the prefix length and keeps the block |
| Netip.OverlapsNets | internal/netpol/generator.go:1040-1052 | two prefixes overlap exactly when one block contains the other |
| Netip.ContainsNets | internal/netpol/generator.go:445-450 | a prefix holds an address exactly when its path begins the path of the address |
| Netip.SetBitAt | internal/netpol/generator.go:1068-1070 | the byte edit sets the named bit and no other |
| Netip.SplitNets | internal/netpol/generator.go:1065-1073 | the halves of a prefix are the two children of its block, masked |
| Netip.SplitPartitions | internal/netpol/generator.go:1065-1073 | each address of a prefix is in exactly one half, and the halves hold no other address |
| Netip.FamilyOfBlock | internal/netpol/generator.go:948-957 | the family decided through Unmap is a property of the block: IPv4, or inside ::ffff:0:0/96 |
| Netip.UnmapMeans | internal/netpol/generator.go:443 | the mapped form of an IPv4 address gives it back, and no other address changes |
| Netip.LeafAddr | internal/netpol/generator.go:1065-1073 | every leaf of the tree is an address, so statements over leaves are statements over addresses |
| Exemptions.Descend | internal/netpol/generator.go:1046-1057 | the descent ends and leaves exactly the sibling blocks along the path |
| Exemptions.CutPrefix | internal/netpol/generator.go:1036-1061 | the list that is left is the cut of each block of the list, in order |
| Exemptions.ParseMasked | internal/netpol/generator.go:1000-1007 | a list of texts is accepted exactly when each parses, and then gives the blocks in order |
| Exemptions.CutHoles | internal/netpol/generator.go:1017-1020 | what is left of one block after all exemptions, in terms of the reference remainder |
| Exemptions.SubtractEntry | internal/netpol/generator.go:1021-1028 | an entry from which nothing was cut keeps its spelling, any other becomes its pieces |
| Exemptions.SubtractExempt | internal/netpol/generator.go:995-1031 | an address is in the result exactly when it is reserved and not exempt; a family is in it exactly when the exemptions leave a block of it; an error exactly when an exemption list is given and some text does not parse; untouched entries keep their spelling |
| Exemptions.EffectiveExact | internal/netpol/generator.go:995-1031 | the union of all pieces of all entries is reserved minus exempt |
| Exemptions.EffectiveFamily | internal/netpol/generator.go:995-1031 | which families the effective list still has |
| EgressPolicy.PortsFor | internal/netpol/generator.go:802-835 | accepted exactly when one declaration form is used and every port is usable; the rendered ports admit exactly the declared ones |
| EgressPolicy.ExceptFor | internal/netpol/generator.go:942-978 | the block is covered exactly when a reserved block contains it or none has its family; otherwise block and except list admit exactly the base minus the reserved list, and each except entry nests strictly |
| EgressPolicy.ExceptExact | internal/netpol/generator.go:942-978 | subtracting the nested reserved blocks subtracts the whole reserved list |
| EgressPolicy.ResolverSplit | internal/netpol/generator.go:426-467 | which resolvers the DNS rule names and which the Pod uses, in order, and exactly when the split is refused and with which error; a resolver that keeps its zone is never found reserved |
| EgressPolicy.DnsRuleAdmits | internal/netpol/generator.go:897-917 | the DNS rule admits port 53 over UDP or TCP to the named resolvers and nothing else |
| EgressPolicy.HeadAdmits | internal/netpol/generator.go:350-363 | selector allowances admit no address through an ipBlock |
| EgressPolicy.PeersFor | internal/netpol/generator.go:706-726 | the peers admit exactly what some base grants; there are none exactly when every base is covered |
| EgressPolicy.CompileEntry | internal/netpol/generator.go:675-744 | an entry is unresolved, suppressed or a rule, each under its exact condition, and the rule admits exactly what the entry grants |
| EgressPolicy.EgressAllowList | internal/netpol/generator.go:662-757 | the policy admits the head rules and what some entry grants; the recorded unresolved and suppressed entries are exactly those |
| EgressPolicy.CompileExternalOnly | internal/netpol/generator.go:603-622 | every IPv4 address outside the reserved list on every port, after the head rules |
| EgressPolicy.Generate | internal/netpol/generator.go:332-383 | the network block of the Sandbox is enforced whatever the class says; without one the class default, unless it is empty; else no rule at all. Enforced means: a policy exactly for the inputs of `Compiles`, which admits a packet exactly when the declarations do, nests every except entry strictly, renders every selector allowance and nothing else with a selector, and records exactly the unresolved entries and only suppressed ones that reach nothing |
| EgressPolicy.Compile | internal/netpol/generator.go:332-383 | the same for one posture |
| EgressPolicy.GrantsDNS | internal/netpol/generator.go:473-482 | some allowance of the class names port 53 by number |
| EgressPolicy.HeadSelectors | internal/netpol/generator.go:503-525 | one rule for each selector allowance, in order, with its selector and its ports, TCP where it names no protocol |
| EgressMeaning.PortsUsable | internal/netpol/generator.go:802-835 | an entry is usable exactly when it has one port form and every port or range is TCP or UDP, not empty and within 1 to 65535 |
| EgressMeaning.PortsDeclared | internal/netpol/generator.go:802-835 | what a usable entry declares: its port over TCP, or the ports and ranges of its list |
| EgressMeaning.EntryMeans | internal/netpol/generator.go:706-744 | what an entry reaches: the addresses of its CIDR, of its literal host, or of its resolved name, less the reserved ones |
| EgressMeaning.EntryUsable | internal/netpol/generator.go:675-726 | an entry is refused exactly for its ports, a malformed CIDR or a malformed answer |
| EgressMeaning.EntryUnlocated | internal/netpol/generator.go:675-705 | an entry is unresolved exactly when it names a host that resolves to nothing |
| EgressMeaning.CoveredMeans | internal/netpol/generator.go:942-978 | a block is withheld exactly when one reserved block holds all its addresses or none has its family |
| EgressMeaning.ExternalMeans | internal/netpol/generator.go:603-622 | external-only is every IPv4 address that is not reserved, on every port |
| EgressMeaning.DnsMeans | internal/netpol/generator.go:426-467 | DNS is port 53 over UDP or TCP to a resolver with a zone or not reserved as unmapped |
| EgressMeaning.OtherModes | internal/netpol/generator.go:360-383 | no network admits nothing, and an unknown mode never compiles |
| EgressPolicy.ReservedNeverAdmitted | internal/netpol/generator.go:426-467 | no declared packet goes to an effective reserved address exactly when each resolver that is reserved as written has no zone and is reserved as unmapped, too |
| EgressPolicy.MappedResolverInstance | internal/netpol/generator.go:443-457 | a valid configuration that compiles, in which that fails for ::ffff:8.8.8.8 |
| EgressPolicy.ZonedResolverInstance | internal/netpol/generator.go:921-928 | a valid configuration that compiles, in which that fails for fe80::1 with a zone |
| EgressPolicy.Validate | internal/netpol/generator.go:221-252 | a configuration is accepted exactly when both families are reserved, every text parses and there is a resolver; each error says which of these failed |
| EgressPolicy.WideningExact | internal/netpol/generator.go:950-977 | more exemptions keep a packet declared exactly while the family of its address keeps a reserved block |
| EgressPolicy.ExemptionsWiden | internal/netpol/generator.go:950-977 | while both families keep one, a larger exemption list admits a superset |
| EgressPolicy.FamilyWithdrawn | internal/netpol/generator.go:971-977 | once a family keeps none, no ipBlock other than DNS reaches an address of it |
| EgressPolicy.WithdrawnInstance | internal/netpol/generator.go:971-977 | a valid configuration that compiles, in which an exemption takes an address away |
| EgressPolicy.FamilyKeptIffAddress | internal/netpol/generator.go:950-977 | outside the IPv4-mapped block a family is kept exactly when an address of it stays reserved |
| Checkpoint.RunInv | internal/controller/session_checkpoint.go:363-584 | the invariant of the protocol holds in every state of every run |
| Checkpoint.StepInv | internal/controller/sandbox_controller.go:793-891 | every step of the reconciler and its environment keeps it, whatever the cache shows |
| CheckpointLaws.LoadsExact | internal/controller/session_checkpoint.go:505-584 | with arbitrarily stale Sandbox views, the loads of a checkpoint are those of its aborted restores and that of the restore that consumed it, if it loaded; a load into the Pod that wrote it has a status without a UID |
| CheckpointLaws.ReloadIff | internal/controller/session_checkpoint.go:498-577 | after a restore that loaded, some continuation loads the checkpoint again exactly when the restore had to delete the Pod and could not |
| CheckpointLaws.NeverAgain | internal/controller/session_checkpoint.go:567-577 | in every run a consumed checkpoint is never loaded again |
| CheckpointLaws.AbortedRestoreRepeats | internal/controller/session_checkpoint.go:546-556 | a restore that loads and then cannot delete the Pod leaves itself enabled |
| CheckpointLaws.RefusedPodEnds | internal/controller/session_checkpoint.go:662-675 | a Pod that the gate refused ends with that restore exactly when it could be read and deleted |
| CheckpointLaws.DoubleLoadInstance | internal/controller/session_checkpoint.go:546-556 | a run from the start that loads one checkpoint twice |
| CheckpointLaws.ChainInvariant | internal/controller/session_checkpoint.go:378-420 | in every run the chain of the status has at most 8 parents, starts with a full checkpoint, is complete in the store, in increasing order and written by one Pod; completed sequence numbers never repeat; the recovery count is the number of recoveries |
| CheckpointLaws.NeverWithoutCheckpoint | internal/controller/session_checkpoint.go:363-427 | at every point of a checkpoint, however its deletes end and also when it fails after it stored an object, the store holds a complete chain if it held one; a failed one leaves the old chain |
| CheckpointLaws.TakeStoresEnds | internal/controller/session_checkpoint.go:363-427 | those points begin with the store before the checkpoint and end with the one it leaves |
| CheckpointLaws.TidyRun | internal/controller/session_checkpoint.go:710-721 | while every delete succeeds, the store holds exactly the chain that the status names |
| CheckpointLaws.SuspendParks | internal/controller/session_checkpoint.go:438-496 | a user, idle or pause-timeout suspend leaves the checkpoint it just took pending, with a complete chain and an ending Pod, or does not change the phase |
| CheckpointLaws.DrainParks | internal/controller/session_checkpoint.go:473-480 | after a drain the checkpoint is pending exactly when it is fresh, or there is one and the session is durable |
| CheckpointLaws.FlipsIff | internal/controller/sandbox_controller.go:905-910 | a suspended session without a reason to resume can leave its phase exactly while the cache shows its Pod without mark and deletion |
| CheckpointLaws.RestingRun | internal/controller/sandbox_controller.go:810-828 | over any stretch of a run without a reason to resume it stays suspended exactly when no status is derived; then it gets no Pod, and is recycled no earlier than its TTL |
| CheckpointLaws.FlippedInstance | internal/controller/sandbox_controller.go:814-822 | a run in which a session that is asked to stay suspended gets a second Pod |
| CheckpointLaws.HeldRun | internal/controller/sandbox_controller.go:589-593 | once the cache shows the end of the Pod, it stays suspended with no Pod until it resumes or is recycled, over any stretch of a run |
| CheckpointLaws.RestorableIff | internal/controller/session_checkpoint.go:308-314 | the parked checkpoint of such a session can be restored exactly while the cache shows its Pod running and no UID is recorded, and then into the Pod that wrote it |
| CheckpointLaws.ParkedRun | internal/controller/session_checkpoint.go:308-314 | over any stretch in which it is not exposed that way, the parked checkpoint stays pending: no restore takes it |
| CheckpointLaws.WriterLoadInstance | internal/controller/session_checkpoint.go:724-735 | a run that loads a checkpoint into the Pod that wrote it |
| CheckpointLaws.HeldStep | internal/controller/session_checkpoint.go:600-703 | of a session held by the cache, no status is derived and no checkpoint step is taken |
| CheckpointEffects.TakeStatus | internal/controller/session_checkpoint.go:363-410 | the status of a new checkpoint, and that it is a diff exactly for the Pod that wrote the last one in a durable launcher session with fewer than 8 parents |
| CheckpointEffects.TakeStore | internal/controller/session_checkpoint.go:363-427 | which objects the store holds after a checkpoint, one by one |
| CheckpointEffects.SuspendEffect | internal/controller/session_checkpoint.go:438-496 | phase, reason, time, pending mark and both marks of the Pod after a suspend, from the outcomes of its calls |
| CheckpointEffects.SuspendAsks | internal/controller/session_checkpoint.go:247-275 | a suspend can happen exactly with an unmarked Pod in the cache, in the phase and for the request that its reason names |
| CheckpointEffects.StepAsks | internal/controller/sandbox_controller.go:793-846 | when exactly a checkpoint, a node loss, a restart, a derived status and the missing Pod step can happen |
| CheckpointEffects.PodOwnSteps | internal/controller/sandbox_controller.go:814-822 | what the Pod and its cache do on their own |
| CheckpointEffects.TakeFailedEffect | internal/controller/session_checkpoint.go:363-400 | a failed checkpoint leaves the status alone and adds at most its object |
| CheckpointEffects.RestoreEffect | internal/controller/session_checkpoint.go:505-584 | from the attempt, the removal and the kind of session alone: when a restore deletes the Pod, when it consumes the checkpoint and when it calls for a load |
| CheckpointEffects.ConsumedStatus | internal/controller/session_checkpoint.go:567-577 | what is left of a consumed checkpoint: its number and the record of a resume exactly when the load succeeded; else nothing changes |
| CheckpointEffects.ConsumedStore | internal/controller/session_checkpoint.go:710-721 | which objects a restore leaves, one by one |
| CheckpointEffects.RestoreAsks | internal/controller/session_checkpoint.go:308-314 | a restore can happen exactly with a running Pod in the cache that does not end and is not the recorded writer, and a live status that has the checkpoint pending |
| CheckpointEffects.LoseNodeEffect | internal/controller/session_checkpoint.go:766-783 | a lost node marks the last checkpoint and removes the Pod, and nothing else |
| CheckpointEffects.RestartEffect | internal/controller/sandbox_controller.go:961-991 | an exited Pod is deleted; a recovery from the workspace is recorded exactly without a checkpoint |
| CheckpointEffects.DeriveEffect | internal/controller/sandbox_controller.go:921-960 | a derived status moves its time exactly when the phase changes |
| CheckpointEffects.MissingEffect | internal/controller/session_checkpoint.go:600-626 | a suspended session sleeps on exactly while it is asked to, while it is asked to pause after a pause timeout, or without activity since an idle suspend; in every other case a missing Pod is made when the create succeeds |
| CheckpointEffects.SleepsRun | internal/controller/session_checkpoint.go:600-626 | over any stretch in which it sleeps on it gets no Pod, and goes no earlier than its TTL |
| CheckpointEffects.WakesStep | internal/controller/session_checkpoint.go:600-626 | as soon as it does not, the next reconcile makes a Pod with the checkpoint pending |
| SessionController.Session.constructor | internal/controller/session_checkpoint.go:173-176 | a new session is an initial state of the machine |
| SessionController.Session.DeleteCheckpointChain | internal/controller/session_checkpoint.go:710-721 | the links that can be deleted are gone and nothing else; the store after each delete is the reference one |
| SessionController.Session.SaveCheckpoint | internal/controller/session_checkpoint.go:363-410 | the object and the status of the new checkpoint, full or diff |
| SessionController.Session.TakeCheckpoint | internal/controller/session_checkpoint.go:363-427 | one checkpoint of the machine, which keeps the invariant; the stores on the way are those of the reference, and each holds the old or the new chain complete |
| SessionController.Session.ReleasePod | internal/controller/session_checkpoint.go:457-471 | the mark comes before the delete, and which of the two failed shows in the Pod |
| SessionController.Session.SuspendSession | internal/controller/session_checkpoint.go:438-496 | one enabled suspend step that keeps the invariant; exactly when it reaches its status patch, what that says, and that the Pod then carries both marks |
| SessionController.Session.PeriodicCheckpoint | internal/controller/session_checkpoint.go:279-303 | one enabled checkpoint step that keeps the invariant; it changes no phase and no Pod, loads nothing, and a failed one keeps the status |
| SessionController.Session.RestorePendingCheckpoint | internal/controller/session_checkpoint.go:505-584 | one enabled restore step if the live Sandbox still has the checkpoint pending, else no change; from the attempt, the removal and the kind of session alone, when the Pod is deleted, when the checkpoint is consumed, what is recorded and what is loaded |
| SessionController.Session.ConsumeCheckpoint | internal/controller/session_checkpoint.go:567-577 | the chain goes, the sequence and the recovery record stay |
| SessionController.Session.ResumeAfterNodeLoss | internal/controller/session_checkpoint.go:766-783 | one enabled step that keeps the invariant: the last checkpoint waits for the next Pod with its chain complete, nothing is loaded, and the Pod is gone if it could be deleted |
| SessionController.Session.RestartExitedSession | internal/controller/sandbox_controller.go:961-991 | one enabled step that keeps the invariant: a checkpoint is left untouched and complete, a recovery is added exactly when there is none, and the Pod ends if it could be deleted |
| SessionController.Session.HandleMissingPod | internal/controller/sandbox_controller.go:570-612 | one enabled step that keeps the invariant: a suspended session that sleeps on is left alone until its TTL, told from its request, reason and clocks; in every other case the Pod is made when the create succeeds, and never over a checkpoint that is not pending and complete |
| SessionController.Session.SuspendReason | internal/controller/session_checkpoint.go:247-275 | a reason whose phase fits, or none, exactly when nothing asks for a suspend |
| SessionController.Session.SuspendOrTake | internal/controller/session_checkpoint.go:219-242 | nothing or one enabled step, and a suspend whenever the session has to be suspended |
| SessionController.Session.ReconcileCheckpoint | internal/controller/session_checkpoint.go:173-243 | nothing or one enabled step: none for a condemned Pod, a restore exactly when one is due, else the node loss, else the suspend that is due; every other step only under its condition, and none only if no condition holds |
| SessionController.Session.Reconcile | internal/controller/sandbox_controller.go:793-846 | one reconcile is a run of at most two enabled steps of the machine and keeps the invariant: the missing Pod step without a Pod, nothing while a suspend is held, else the derived status first, unless the session is over |
| LogResume.RelayLogStream | internal/frontend/service.go:801-846 | a pass forwards exactly the lines the anchor does not cover, up to the first failed Send, each as its text and a newline; its anchor is that of the lines sent; which errors it reports |
| LogResume.StreamLogs | internal/frontend/service.go:504-560 | a stream is the first pass, and if its source broke one re-read from the top of the anchor's second; what the caller gets and when it is an error, for every failed Send, cancel and broken source; over any ordered log it sends the texts of the entries, once and in order, exactly under the condition on the first window |
| LogResume.StreamTexts | internal/frontend/service.go:526-560 | the exact-resume law on the text that is sent |
| LogResume.FreshIsSuffix | internal/frontend/service.go:749-757 | over ordered stamps a pass drops a prefix: the lines before the anchor and as many of its instant as it counts |
| LogResume.UnstampedKept | internal/frontend/service.go:771-775 | an unstamped line is never dropped |
| LogResume.FirstAnchor | internal/frontend/service.go:738-745 | the anchor of a first pass counts the lines of its last instant from the start of the window |
| LogResume.ResumeForwards | internal/frontend/service.go:526-560 | from where on a re-read forwards, for any first window |
| LogResume.ResumeExactIff | internal/frontend/service.go:526-560 | two passes deliver each entry once and in order exactly when the first window opened at or before the group it broke in, or at the top of the log if nothing was delivered |
| LogResume.DuplicatedInstance | internal/frontend/service.go:478-481 | a tail of one line that is sent twice |
| LogResume.WholeLogInstance | internal/frontend/service.go:536-543 | a tail of one line that is answered with the whole log |
| LogResume.NextPass | internal/frontend/service.go:801-846 | one more pass under a right anchor goes on where the last one stopped and leaves a right anchor |
| LogResume.PassesExact | internal/frontend/service.go:526-560 | any number of passes, each broken anywhere, on a growing log, deliver every entry once and in order |
| LogResume.StreamExact | internal/frontend/service.go:428-560 | the same from a first pass that starts at a group |
| Reaper.RunInv | internal/guestagent/supervisor.go:47-75 | the invariant of the reaper holds in every interleaving |
| Reaper.OwnStatusOnce | internal/guestagent/supervisor.go:61-75 | a started process is sent at most one status, and it is its own, also when its pid is used again |
| Reaper.ExitOnce | internal/guestagent/supervisor.go:61-75 | a process that ends has no status yet and has been sent none |
| Reaper.SendNeverBlocks | internal/guestagent/supervisor.go:70-73 | the send under the lock always finds room in the channel of one slot |
| Reaper.OrphanDropped | internal/guestagent/supervisor.go:70-73 | the status of an orphan reaches no channel and removes no waiter |
| Reaper.StepSignal | internal/guestagent/supervisor.go:47-57 | a zombie always has a signal on its way or a reap that looks again, also when the 16 slots are full |
| Reaper.ZombieMoves | internal/guestagent/supervisor.go:47-75 | with a zombie in the table some step of the supervisor is enabled |
| Reaper.OwnStepsEnd | internal/guestagent/supervisor.go:47-75 | the supervisor takes a bounded number of steps of its own from any state |
| Reaper.NothingLeftBehind | internal/guestagent/supervisor.go:47-75 | when it has none left, no zombie remains and each started process that ended was sent its status |
| Reaper.WaitReturnsOwn | internal/guestagent/supervisor.go:84-90 | a wait that returns takes the status of its own process |
| Reaper.OneAnswer | internal/guestagent/supervisor.go:84-90 | a process is waited for with an answer at most once |
| Reaper.Supervisor.constructor | internal/guestagent/supervisor.go:47-49 | a new supervisor is the initial state of the machine |
| Reaper.Supervisor.Wait4 | internal/guestagent/supervisor.go:65-69 | the kernel hands out some zombie and forgets it, or there is none |
| Reaper.Supervisor.HandOver | internal/guestagent/supervisor.go:70-73 | the dispatch step of the machine |
| Reaper.Supervisor.ReapOne | internal/guestagent/supervisor.go:64-74 | one round is a run of the machine and takes a process off the table, or ends the loop with no zombie left |
| Reaper.Supervisor.Reap | internal/guestagent/supervisor.go:61-75 | a reap is a run of the machine, ends, leaves no zombie, and all that ended were sent their own status |
| Reaper.Supervisor.Start | internal/guestagent/supervisor.go:130-141 | the fork and the registration are one run under the lock, or nothing changes |
| Reaper.Supervisor.Wait | internal/guestagent/supervisor.go:84-90 | the code of the process's own exit, or 128 plus its signal |
| Bytes.WordRoundTrip | internal/guestagent/protocol.go:136-149 | big-endian words decode to what was encoded |
| Bytes.WordInverse | internal/guestagent/protocol.go:136-149 | and every four bytes are the encoding of their word |
| ExecFrames.WriteFrame | internal/guestagent/protocol.go:131-142 | data over the limit is refused before any byte is out; otherwise what was added reads back as the frame |
| ExecFrames.FrameBytes | internal/guestagent/protocol.go:131-142 | the bytes of a frame |
| ExecFrames.ExitBytes | internal/guestagent/protocol.go:169-174 | the code in an exit frame: big-endian two's complement, or 255 |
| ExecFrames.DemuxKinds | internal/launcher/guest.go:256-275 | kind 1 is stdout, 2 stderr, 3 the end, and any other is passed over |
| ExecFrames.AgentMoves | internal/guestagent/server.go:184-223 | until the exit frame is out some step can be taken, and every one brings the end nearer |
| ExecFrames.ReadFrame | internal/guestagent/protocol.go:145-159 | a frame, or an error for a short stream or an oversized length |
| ExecFrames.FrameRoundTrip | internal/guestagent/protocol.go:131-159 | a written frame reads back, whatever follows it |
| ExecFrames.FrameInverse | internal/guestagent/protocol.go:145-159 | a stream that reads as a frame began with its encoding |
| ExecFrames.CutFrame | internal/guestagent/protocol.go:145-159 | no proper prefix of a frame reads as one |
| ExecFrames.ExitRoundTrip | internal/guestagent/protocol.go:162-174 | the exit code comes back exactly when it is a 32-bit signed value, else cut to one |
| ExecFrames.Exec | internal/launcher/guest.go:256-275 | the loop writes the two outputs and returns the code of the demultiplexed stream |
| ExecFrames.RunInv | internal/guestagent/server.go:184-223 | under the lock the wire is whole frames and at most one header, nothing of an output is lost, doubled or out of order, and the exit frame is last |
| ExecFrames.CutStream | internal/launcher/guest.go:256-260 | a stream that was cut gives no code and a prefix of each output |
| ExecFrames.ExecFaithful | internal/launcher/guest.go:256-275 | at any moment of any interleaving and for any part of the wire that arrived, each output is a prefix of what the process wrote; a code is returned exactly when all arrived, and then both outputs are whole and the code is the one sent |
| Entropy.RequestRoundTrip | internal/entropy/protocol.go:84-129 | a request reads back, whatever follows it |
| Entropy.RequestBytes | internal/entropy/protocol.go:84-102 | the bytes of a request and the sizes that can be sent |
| Entropy.AckBytes | internal/entropy/protocol.go:133-142 | the bytes of an ack |
| Entropy.RequestInverse | internal/entropy/protocol.go:105-129 | what reads as a request began with its encoding |
| Entropy.CutRequest | internal/entropy/protocol.go:105-129 | no proper prefix of a request parses |
| Entropy.AckRoundTrip | internal/entropy/protocol.go:133-160 | an ack reads back, whatever follows it |
| Entropy.AckInverse | internal/entropy/protocol.go:145-160 | what reads as an ack began with its encoding |
| Entropy.CutAck | internal/entropy/protocol.go:145-160 | no proper prefix of an ack parses |
| Entropy.ReadRequest | internal/entropy/protocol.go:105-129 | the payload, or an error in each malformed case |
| Entropy.WriteRequest | internal/entropy/protocol.go:84-102 | an empty or oversized payload is refused |
| Entropy.GuestHandler.ServeConn | internal/entropy/guest.go:84-110 | a request that parses is injected or not, and acked with the digest of what came in; any other changes nothing |
| Entropy.Reseed | internal/entropy/host.go:61-126 | success implies that the pool took exactly one payload more, with the digest of the one sent, whatever the link did to the request; over a faithful link it succeeds exactly under the listed conditions and the pool took the payload itself |
| LauncherRun.IsDiskSHA256 | internal/launcher/run.go:253-263 | 64 lower-case hex digits |
| LauncherRun.DigestMeans | internal/launcher/run.go:253-263 | that is, 64 characters of 0123456789abcdef |
| LauncherRun.AfterStepsMeans | internal/launcher/guest.go:115-164 | the steps of the guest for each start |
| LauncherRun.RefusedMeans | internal/launcher/run.go:194-304 | a run is refused before the join exactly for a failed check, an invalid or unrecorded digest, missing staged files, or a snapshot of another disk |
| LauncherRun.ConnectsMeans | internal/launcher/run.go:117-190 | a machine gets onto the network exactly when nothing before it failed, in terms of the effects alone |
| LauncherRun.ReportsMeans | internal/launcher/run.go:373-408 | a run that reports got through all it needs and has the code of the report |
| LauncherRun.Launcher.constructor | internal/launcher/run.go:86-112 | a launcher that has done nothing yet |
| LauncherRun.Launcher.Prepare | internal/launcher/run.go:194-224 | the run goes on exactly when the disk is unchecked or checked with a valid recorded digest, which it keeps |
| LauncherRun.Launcher.StartKind | internal/launcher/run.go:234-304 | a snapshot is used exactly when it is staged and ran on the checked disk; a failure is told to the node agent |
| LauncherRun.Launcher.AfterStart | internal/launcher/guest.go:115-164 | the steps of the guest happen in the fixed order for the start, up to the first that fails |
| LauncherRun.Launcher.FinishRestore | internal/launcher/run.go:345-367 | only a reseeded machine is connected, and the evidence says which it was |
| LauncherRun.Launcher.WaitExit | internal/launcher/run.go:373-408 | the machine exits or is told to stop, once, and only a report gives the workload's code |
| LauncherRun.Launcher.BringUp | internal/launcher/run.go:168-188 | exactly when the machine is connected and when the run gets to wait, and that each connect came after all it needs |
| LauncherRun.Launcher.RunMachine | internal/launcher/run.go:156-189 | a started machine has exited or was told to stop, exactly once on every path |
| LauncherRun.Launcher.RunJoined | internal/launcher/run.go:131-189 | what the run does between the join and the leave |
| LauncherRun.Launcher.Run | internal/launcher/run.go:117-190 | over every pattern of failures: the exact network and machine calls in order and what they came to; a snapshot machine is connected only over the disk it ran on, after load, reseed, clock, network identity and uniquify, and never with the no-reseed marker; the evidence says whether it was connected; the exact result |
| LauncherRun.NothingRemains | internal/launcher/run.go:114-165 | in every run each join is followed by one call to leave, last of all, and each machine by its exit or one call to stop; the join remains exactly when the leave fails, the machine exactly when it did not exit and the stop fails |
| LauncherRun.UnconfirmedInstance | internal/launcher/run.go:181-188 | a run without `AfterStart` that connects a loaded machine whose guest confirmed nothing |
| ResolverCache.NormalizePrefixes | internal/netpol/resolver.go:218-232 | the loop and sort compute the normal form |
| ResolverCache.NormalizeMeans | internal/netpol/resolver.go:216-232 | a normal form is strictly increasing and holds exactly the rendered addresses |
| ResolverCache.NormalizeBySet | internal/netpol/resolver.go:154-160 | lookups with the same set of addresses give the identical answer |
| ResolverCache.AnswersFresh | internal/netpol/resolver.go:161-214 | in every interleaving an answer is the call's own lookup, or one for the same host begun less than the TTL before it, or less than the grace if its own lookup failed; an error only after its own lookup failed |
| ResolverCache.CallMoves | internal/netpol/resolver.go:161-184 | a call that has not returned can always go on |
| ResolverCache.EntryIsLastStore | internal/netpol/resolver.go:209-214 | in every interleaving the cache holds for a host the answer that was stored last, even over one looked up later |
| ResolverCache.ErrorIff | internal/netpol/resolver.go:170-179 | in every interleaving a call answers with an error exactly when its lookup failed and the answer stored last, if any, was looked up the grace or longer before it |
| ResolverCache.HitFromCache | internal/netpol/resolver.go:187-207 | an answer out of the cache was found by a lookup for the same host that began less than the limit before |
| ResolverCache.CachingResolver.constructor | internal/netpol/resolver.go:125-150 | unset limits select the defaults |
| ResolverCache.CachingResolver.Resolve | internal/netpol/resolver.go:161-184 | one call alone is a run of the machine |
| Names.IncreasingUnique | internal/netpol/resolver.go:230 | a sorted list without duplicates is fixed by its members |
| WarmPool.StampImage | internal/controller/warm_pool.go:519-536 | the image has the new stamp and all others theirs, but for the first of the oldest exactly when a new image meets a full list; a list without duplicates and a sorted one stay so |
| WarmPool.Oldest | internal/controller/warm_pool.go:526-531 | the first entry with the oldest stamp |
| WarmPool.MergePoolImages | internal/controller/warm_pool.go:419-436 | over any live list, each name has the latest of its stamps, where one that only the live list has must not be idle; the result is sorted and names each image once, as the computed list does |
| WarmPool.MergedOnce | internal/controller/warm_pool.go:425-432 | over a live list without duplicates that is the later of the two stamps, or a live one that is not idle |
| WarmPool.PoolImages | internal/controller/warm_pool.go:111-132 | for any status list, each image once, with its first stamp within the idle time, and the first image; nil exactly when there is none |
| WarmPool.ActiveMeans | internal/controller/warm_pool.go:114-127 | the stamp of a pool image is that of its first entry asked for in the last 7 days |
| WarmPool.AlwaysSorted | internal/controller/warm_pool.go:393-436 | every list the API server holds is sorted and names each image once |
| WarmPool.KeptStep | internal/controller/warm_pool.go:393-536 | exactly which writes, told from the list and the write alone, lose the stamp of an image that is not idle |
| WarmPool.StampKept | internal/controller/warm_pool.go:393-415 | over any run of the two writers without such a write, the image stays listed with a stamp at least as late until it is idle |
| WarmPool.StampLands | internal/controller/warm_pool.go:489-515 | a stamp whose patch lands is on the list at once, exactly when it is not itself the first of the oldest of a full list |
| WarmPool.FullListEvicts | internal/controller/warm_pool.go:524-534 | from 32 images on, a new image that is no older than the rest takes the place of the first of the oldest; below that none goes |
| WarmPool.ClearedInstance | internal/controller/warm_pool.go:401-404 | a run in which a computed list with no image clears a stamp it has not seen |
| WarmPool.TurnedBackInstance | internal/controller/warm_pool.go:493-509 | a run in which a Sandbox with an older clock reading turns a stamp back |
| WarmPool.EvictedInstance | internal/controller/warm_pool.go:524-534 | a full list of images just asked for that loses one |
| TarNames.CleanTarName | internal/diskbuilder/diskbuilder.go:138-155 | the loop computes the clean name |
| TarNames.CleanRefuses | internal/diskbuilder/diskbuilder.go:145-146 | a name is refused exactly when ".." stands in it between slashes or the ends |
| TarNames.CleanParts | internal/diskbuilder/diskbuilder.go:138-155 | the parts of a clean name are the other parts in order, none empty or ".", and a directory keeps its slash |
| TarNames.CleanRelative | internal/diskbuilder/diskbuilder.go:138-155 | a clean name has no leading slash |
| TarNames.CleanIdempotent | internal/diskbuilder/diskbuilder.go:138-155 | cleaning a clean name changes nothing |
| TarNames.SetecFiltered | internal/diskbuilder/diskbuilder.go:109-113 | the filter catches exactly the names whose first part is .setec |
| TarNames.ImageTar | internal/diskbuilder/diskbuilder.go:83-129 | the image is refused exactly when some name or hard link leaves the root; otherwise the disk is the kept entries and then setec's own |
| TarNames.LeavesMeans | internal/diskbuilder/diskbuilder.go:96-108 | an entry is refused exactly for ".." in its name, or as a hard link to a name with ".." or to the root |
| TarNames.WrittenIff | internal/diskbuilder/diskbuilder.go:96-119 | exactly the entries that are not the root and not under .setec are written, under their clean name and link |
| TarNames.WrittenClean | internal/diskbuilder/diskbuilder.go:96-113 | every entry from the image is written under a clean name outside .setec |

## Left out

- Checkpoint: storage references are injective in the sequence number, a status derivation keeps the checkpoint and never yields Suspended, the closing status patch of a step lands, and the tenant, class and snapshotRef guards pass. There is one cached copy of the Pod, which catches up at any time and never goes back; stale Sandbox views are modelled in the restore path only. The delete of a Pod whose Sandbox a timeout failed is an eviction by the environment.
- CheckpointLaws.RestingRun: speaks of sessions whose class has a checkpoint policy; the idle, pause and period deadlines that trigger a suspend are enabled at any time.
- CheckpointLaws.HeldRun: the same.
- SessionController.Session.Reconcile: the Sandbox it reads is the live one; policies, metrics, the pause and resume lifecycle and the requeue times are not part of it.
- Reaper: stop and continue signals are modelled as spurious signals; the environment, user and path lookup of `Start` is not.
- Reaper.Supervisor.Reap: runs without other processes ending in between; every interleaving is covered by the step machine.
- LogResume: the timestamp parser and lines cut in the middle; stamps are assumed non-zero and non-decreasing, and the re-read is assumed to hold the whole second of the anchor.
- ExecFrames: the stdin direction, failed writes to stdout or stderr, and the JSON lines before the stream; a failed connection is a cut of the wire.
- Entropy.Reseed: SHA-256 is a function to 32 bytes, so the conclusion allows a collision; the deadline and the text of the vsock handshake are one flag.
- LauncherRun: the contents of disks, configuration and evidence files, and the identity service; each is one success flag, and a failed `VMM.Start` leaves no process.
- ResolverCache: the lookup timeout, and that a stored answer and the one returned to the storing caller share memory; the text form of a prefix is a parameter.
- WarmPool.StampImage: says nothing of a list that names an image twice, which the API server never holds (`WarmPool.AlwaysSorted`).
- WarmPool.MergePoolImages: says nothing of a computed list that names an image twice, which `WarmPool.PoolImages` never returns.
- WarmPool: bases, their Pods and `pruneBases`; names are compared by characters, and a write that changes nothing is not a step.
- The text of annotations, the order of peers that a lookup returns, and `policyFor` in the egress policy.
- `startWorkload`, `copyIn` and `copyOut` of the guest agent, and the once-only start: easy members.
- Pod and Job construction, the snapshot coordinator and storage backends, credentials and signatures, metrics, events and wiring.
