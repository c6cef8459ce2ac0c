# Verified model of the Nebula CA box's durable core

A box signs host certificates for a Nebula mesh, taking its jobs from USB sticks.
Signing the same host twice gives two different certificates, so a job is run at
most once and its files are kept: retries, later sticks and reboots must all be
answered from the store, even if a process dies or the power fails half-way.
This project models the code that promises that, and the code around it, and
proves the promises for every input, every run and every way a power cut can fall
out. `dafny verify dfyconfig.toml` checks all of it.

## How it is built

* `Storage` is the disk. A directory has an inode table, the entries that reached
  the medium, and the entry operations still waiting. A power cut keeps, in each
  directory separately, some prefix of the waiting operations, and leaves
  arbitrary bytes in every file that was not fsync'd. `Tree` addresses
  directories by path.
* `JobDir`, `ResultsDir`, `RemoveTree`, `CommitLog` and `Reconcile` describe
  `commit` and `reconcile_on_boot` as scripts of system calls, and carry the proof
  that holds between any two of them. The invariant says of every prefix a cut
  could keep that each committed job is whole and nothing else can look committed.
* `StateDisk` holds the same code as methods that change a disk call by call,
  loops and recursion included; each is proved to issue exactly its script.
* `Moments` says what can be read after each single call and which of it a cut can
  take back; `Metadata` when `status.json` is true of the files; `FirstBoot` covers
  the boot before there is a results directory; `AnySubset` shows why the prefix
  assumption and the fsync of each file are needed.
* `Box` has `freshness.check`, `cached_result`, the events (a job presented, killed
  or cut short, an idle power cut, boots that are themselves cut short) and boots;
  every process lists directories in an order of its own. `Histories` is about
  whole runs of them: which are an atomic put-if-absent log, which keep every byte,
  which keep commit order and number order the same.
* `Registry`, `RegistryFile`, `Rebuild`, `Stability` and `Handler` model host
  addresses: the allocator, the atomic save, the rebuild from committed records,
  histories of signings, one handler run stopped at any point. `Fleet` puts disk and
  registry together over whole runs, which may start from any box with nothing
  committed (`Fleet.EmptyIsAStart`). It follows the committed records and
  certificates in commit order, and each job says whether its output directory
  passes collection: 32 new hosts already write 65 files, one above the cap, so the
  registry is saved and the job is committed without outputs.
* Theorems about listing orders hold for any order; that there are such orders is
  `Basics.ListersExist` and `Fleet.ListingsExist`.
* `Extract` folds a tar member stream into a tree; `Collect` walks an output tree
  with nothing else running; `CollectRace` lets another process change everything
  between any two calls of the walk, chunk reads included.
* `Button` and `KeyBits` decode key events and bitmaps; `Mountctl` retries `umount`.

## Where the code and its documentation differ

* `registry.py` says a rebuilt address is fixed under any tie of the sort key. It
  is, exactly when the tied least-keyed records agree on it
  (`Rebuild.IpOrderFree`, `Rebuild.TieMovesTheAddress`). It also says that keys cannot
  tie, because no two committed jobs have one number; after a kill that leaves the
  seq file behind a second job of that number can be committed
  (`Histories.LagAdmitsLower`).
* `cached_result` says "durably committed". Between the `DONE` rename and the
  directory fsync a process that dies without a power cut leaves an answer that a
  later power cut can remove (`Moments.AnsweredTooSoon`); it is the only such moment
  (`Histories.FirmUnlessLanding`).
* `commit` treats the caches as repairable at leisure. A process that dies after the
  job is durable and before the seq file is replaced (a lagging kill) leaves `check` calling jobs of
  lower numbers fresh until the next boot, or until a job gets the seq replaced under
  a number that no committed job exceeds (`Histories.RunStands`,
  `Histories.LagAdmitsLower`). Commit order is number order exactly when no such job
  is numbered below a committed one (`Histories.HistoryIsMonotone`).
* `commit` says each `status.json` entry describes a written file. An output named
  like a later write's `.tmp` sibling is gone by then (`Metadata.AllAgree`).
* A committed host is meant to keep its address and share it with nobody. A
  `sign-hosts` run that is stopped after the record of a new host and before the
  rename in `registry.save`, by a later host, a failing call or the time limit, is
  committed with that record, and the registry is not saved. The next boot takes
  the address back (`Fleet.EventKeeps`); until then the next new host is given it
  (`Handler.HandleContained`, `Handler.LostAddressIsReused`), and from then on two
  committed hosts share it for ever (`Fleet.SharedOnlyByCollision`).
* Nor does a committed host always keep its address. If such a run is also killed so
  that the seq stays behind, a job of a lower number can sign the lost host again for
  another address, and the next boot moves it there (`Handler.ResignedElsewhere`).
  This is the only way (`Handler.MovesExactly`, `Fleet.MovesOnlyBehind`).
* Stopped between a new host's certificate and its record, the run leaves a committed
  certificate whose address not even a boot takes back
  (`Handler.CertificatesHeld`, `Handler.OrphanIsReused`).
* The key conflict check runs for new names only, so a re-key can give two hosts
  one key (`Registry.SignKeeps`, `Registry.RekeyCanShareAKey`).
* A job presented again under its own number is stale, not a replay, because the
  number is compared first (`Box.SameNumberIsStale`).

## Model

| member | source | states |
|---|---|---|
| `ResultsDir.LandingSurvives` | box/lib/causb/commitlog.py:49-55 | A power cut between the `DONE` rename and the directory fsync leaves the whole job if it kept every waiting entry operation of that directory, and otherwise a directory that no later cut can make look committed. |
| `JobDir.JobRuns` | box/lib/causb/commitlog.py:395-405 | Steps 1 to 3, call by call: none can fail; the directory cannot look committed before the `DONE` rename, is landing with exactly the job's files right after it, and complete after the fsync. |
| `JobDir.AtomicWriteRuns` | box/lib/causb/commitlog.py:183-201 | A whole tmp-write-fsync-rename replaces one name by fsync'd content, removes the `.tmp` sibling, and until its last call only the sibling has changed under every prefix a cut could keep. |
| `ResultsDir.WipeKeepsJobs` | box/lib/causb/commitlog.py:382-387 | Wiping a stale partial job keeps every committed job whole at every call of the removal, whatever the power does. |
| `RemoveTree.RemoveRuns` | box/lib/causb/commitlog.py:306-336 | Bottom-up removal never fails (each `rmdir` meets an empty directory), takes away exactly that entry, and leaves every other inode and entry of the parent as it was at every point. |
| `RemoveTree.TargetsStay` | box/lib/causb/commitlog.py:306-336 | Wherever in the tree the directory is and wherever the removal stops, every path that does not lead to or through the removed entry still leads to the same object, so nothing a link in the tree points to is touched. |
| `ResultsDir.ShrunkStaysClean` | box/lib/causb/commitlog.py:306-336 | No state on the way of a removal gains a valid `DONE`, under any prefix a cut could keep. |
| `CommitLog.CommitEnds` | box/lib/causb/commitlog.py:339-407 | Undisturbed from rest, `commit` is put-if-absent on the log of committed jobs; none of its calls fails; both caches end as the exact projection of the markers; an already committed job is answered without a call. |
| `CommitLog.CommitStands` | box/lib/causb/commitlog.py:339-407 | The same from any standing box, one whose caches a killed process may have left behind: put-if-absent, no call fails, the seq becomes the greater number and exactly this id is added. |
| `CommitLog.CommitCrash` | box/lib/causb/commitlog.py:339-407 | A power cut after any number of its calls, falling out in any way, leaves the old log or the old log with the one new job, whole with every byte, ready for the boot pass. |
| `CommitLog.CrashIsSafe` | box/lib/causb/commitlog.py:28-71 | From any safe disk every power cut leaves a settled medium that shows the old log plus possibly jobs that were landing, and a readable seq file not ahead of it. |
| `CommitLog.BumpAt` | box/lib/causb/commitlog.py:292-303 | At every call of the cache bump the log is untouched; the seq switches from old to new value with the fourth call and the id is in the consumed list from the sixth on. |
| `CommitLog.GoodPrefix` | box/lib/causb/commitlog.py:146-155 | Outputs are written up to the first unsafe or reserved name, which is where `ValueError` is raised: the name after the prefix is refused, and the prefix is everything exactly when every name is allowed. |
| `CommitLog.OutcomeMeans` | box/lib/causb/commitlog.py:370-407 | How `commit` ends: refused iff the id is, or something other than a directory stands in its place, or the job is not committed and a name is refused; committed before iff there is a valid marker; otherwise it commits, and if the seq file cannot be read it has made every call up to the marker's fsync by then. |
| `CommitLog.NamesRefused` | box/lib/causb/commitlog.py:136-155 | The refused names: for a job id the empty one, `.`, `..` and everything with a `/` in it; for an output `DONE` and `status.json` besides. |
| `Reconcile.ReconcileEnds` | box/lib/causb/commitlog.py:410-465 | The boot pass cannot fail from any settled medium, keeps the log, leaves no job directory without a valid marker and brings the box to rest. |
| `Reconcile.ScanIsProjection` | box/lib/causb/commitlog.py:426-457 | What the scan collects is exactly the set of marked jobs, and the seq it writes is the greatest committed number (0 if none). |
| `Reconcile.ReconcileAt` | box/lib/causb/commitlog.py:410-465 | After any number of calls of the boot pass the disk is still safe with the same log. |
| `Reconcile.ReconcileCrash` | box/lib/causb/commitlog.py:410-465 | A power cut anywhere in the boot pass leaves the log unchanged and the medium fit for the next boot pass. |
| `Box.BootRestores` | box/lib/causb/commitlog.py:410-417 | However often the boot pass is cut short, each pass listing directories in an order of its own, the one that gets through brings the box to rest with the log it started from. |
| `Box.BootIsIdempotent` | box/lib/causb/commitlog.py:415-417 | Booting a box at rest changes neither the log nor what either cache reads. |
| `FirstBoot.FirstBootCut` | box/lib/causb/commitlog.py:424-465 | In the very first boot, where the results directory itself is not durable before the last fsync, every cut leaves the box as blank as before or settled with an empty log. |
| `FirstBoot.FirstBootRestores` | box/lib/causb/commitlog.py:424-465 | From a blank state directory any number of interrupted boots ends at rest with an empty log. |
| `Moments.EveryMoment` | box/lib/causb/commitlog.py:292-303 | After every single call of a commit the log read is the old or the new one, switching with the `DONE` rename; the seq switches four calls after the directory fsync and the id two calls later, so neither cache is ever ahead; at every moment but the landing one the box is fit for the next job. |
| `Moments.CommitPoint` | box/lib/causb/commitlog.py:46-49 | The commit point exactly: all cuts leave the old log iff the `DONE` rename has not been made; all cuts leave the new log iff the directory fsync has returned; at the one moment between, both happen. |
| `Moments.AnsweredTooSoon` | box/lib/causb/commitlog.py:468-485 | One call short of durable `cached_result` already answers with the job's files, and a later power cut can still take that answer back. |
| `Moments.KilledBeforeBump` | box/lib/causb/commitlog.py:63-71 | A process that dies between marker and caches without a reboot: the job is committed, `check` still calls a newer number of it fresh, a retry of `commit` does nothing, the caches stay behind until the next power cut and boot, which repairs them. |
| `AnySubset.SubsetLosesStatus` | box/lib/causb/commitlog.py:49-55 | If a cut could keep any subset of a directory's waiting operations instead of a prefix, a valid `DONE` without `status.json` is possible: the ordering assumption is needed. |
| `AnySubset.PrefixIsOneChoice` | box/lib/causb/commitlog.py:49-55 | Keeping a prefix is one such subset, so the weaker file system allows everything the assumed one does. |
| `AnySubset.FsyncIsNeeded` | box/lib/causb/commitlog.py:183-201 | The same writing without the fsync of the file: though the directory is fsync'd, a power cut can leave any content whatever under the final name. |
| `Metadata.EntryAgrees` | box/lib/causb/commitlog.py:248-262 | One `outputs` entry of `status.json` is true of the committed directory iff its name is not the `.tmp` sibling of a control file and the last output to write that name has the same bytes and no later output uses it as its `.tmp` sibling. |
| `Metadata.AllAgree` | box/lib/causb/commitlog.py:395-403 | With distinct names all entries are true of the directory iff no output is named like a later write's `.tmp` sibling. |
| `Metadata.CommittedMetadata` | box/lib/causb/commitlog.py:395-405 | The same, about the files on the disk once `commit` has returned. |
| `Metadata.CommittedDisk` | box/lib/causb/commitlog.py:395-407 | The disk once `commit` has returned, file by file: under `results` and the job's id `DONE` holds the number and `status.json` the id, the number, exactly the caller's other entries, and path, digest and length of each output in order; every other file there is an output under its own name; `seq` reads the greater number and `consumed-jobs` the ids it held and this one. |
| `Metadata.TmpOutputVanishes` | box/lib/causb/commitlog.py:124 | The reserved names do not cover it: with outputs `a.tmp` and `a` the first entry is false. |
| `Metadata.StatusTmpVanishes` | box/lib/causb/commitlog.py:124 | Nor `status.json.tmp`: an output of that name is accepted and its entry is false. |
| `Box.CheckMeans` | box/lib/causb/freshness.py:49-82 | On a box at rest, each verdict in terms of the committed jobs alone: fresh iff admitted, newest and not committed; replay iff admitted, newest and committed; stale iff admitted and not newest. |
| `Box.RefusalsComeFirst` | box/lib/causb/freshness.py:70-74 | On every disk: `wrong_box` iff the job is for a box other than `nebula-ca`; `clock_insane` iff it is for this one, does not set the time, and the year is before 2026. Every other verdict is past both. |
| `Box.SameNumberIsStale` | box/lib/causb/freshness.py:63-80 | A job handed in again under its own number is reported stale, not as a replay, because the number is compared first. |
| `Box.VerdictAgreesWithMarkers` | box/lib/causb/freshness.py:76-82 | "fresh" means no marker for that id, "replay" means `cached_result` has its committed files. |
| `Box.CachedMeans` | box/lib/causb/commitlog.py:468-485 | On every disk: the ids refused are the empty one, `.`, `..` and those with a `/`; otherwise there is an answer iff the job's directory holds a `DONE` with a number not negative, and it is exactly the files there. |
| `Histories.StepKeeps` | box/lib/causb/commitlog.py:28-83 | Any event (a job presented, killed or cut short, an idle power cut, each cut followed by boots that may themselves be cut) other than a kill at the landing moment leaves the box fit for the next job with the log unchanged or with the asked-for job added, which is new; power failures end at rest; while the seq has not fallen behind the new number is above all before; and afterwards the seq is not behind iff the power failed, or a job replaced it under a number no committed job exceeds, or it was not behind before and the event is no kill between the directory fsync and the replaced seq. |
| `Histories.CompletedCatchesUp` | box/lib/causb/commitlog.py:292-303 | A seq that had fallen behind is up to date again after a job that gets it replaced iff no committed job has a higher number. |
| `Histories.FirmUnlessLanding` | box/lib/causb/commitlog.py:46-49 | What any event leaves to be read is there for good, whatever power cut comes next, iff the event is not a kill at the landing moment. |
| `Histories.AddsMeans` | box/lib/causb/commitlog.py:339-407 | Which events add a job, in terms of the verdict, the plan and the call the process got to. |
| `Box.FreshJobCommits` | box/lib/causb/commitlog.py:339-407 | An undisturbed fresh job with allowed names is committed with exactly its files and replays read them. |
| `Histories.StepKeepsDurable` | box/lib/causb/commitlog.py:46-55 | From any box on whose medium a log is durable, landing jobs or not, any event at all keeps it durable byte for byte, and makes the job durable if its process gets as far as the directory fsync. |
| `Histories.CommittedForGood` | box/lib/causb/commitlog.py:73-83 | Over every run, kills at the landing moment of other jobs included, a durable job stays committed byte for byte and `cached_result` returns exactly those bytes. |
| `Histories.CommittedStays` | box/lib/causb/commitlog.py:46-49 | In particular every committed job of a box fit for the next job, and every job whose process got as far as the directory fsync, whatever run follows. |
| `Histories.LandingCanBeLost` | box/lib/causb/commitlog.py:468-485 | After any such run, a kill at the landing moment leaves a job that `cached_result` answers for and an idle power cut makes unknown. |
| `Histories.HistoryIsMonotone` | box/lib/causb/freshness.py:63-80 | Over every run without a kill at the landing moment: each id is committed at most once, nothing is lost or altered, and nothing else is in the log; and from a box whose seq is not behind, numbers rise in commit order iff every job added behind a lagging kill is numbered above all before it. |
| `Histories.RunStands` | box/lib/causb/commitlog.py:63-71 | Over every such run the seq is behind iff there was a lagging kill since which neither the power failed nor a job caught up. |
| `Histories.LagAdmitsLower` | box/lib/causb/freshness.py:63-80 | The order does break: behind a lagging kill a job of no higher number than the killed one is called fresh and committed. |
| `StateDisk.Disk.AtomicWriteFile` | box/lib/causb/commitlog.py:183-201 | Issues exactly the four calls of the script, in the directory given. |
| `StateDisk.Disk.EmptyDir` | box/lib/causb/commitlog.py:322-335 | The recursive walk issues exactly the bottom-up removal script. |
| `StateDisk.Disk.RemoveTreeAt` | box/lib/causb/commitlog.py:306-336 | Refuses a link and leaves the disk alone; otherwise issues exactly the removal script. |
| `StateDisk.Disk.WriteOutputs` | box/lib/causb/commitlog.py:395 | Writes the outputs in order up to the first refused name and returns the metadata of all of them. |
| `StateDisk.Disk.WriteJob` | box/lib/causb/commitlog.py:395-405 | Steps 1 to 3: exactly their script, or the outputs before the first refused name. |
| `StateDisk.Disk.OpenJob` | box/lib/causb/commitlog.py:381-393 | Wipe, create, fsync the parent: exactly that script, leaving the new directory in place. |
| `StateDisk.Disk.BumpCaches` | box/lib/causb/commitlog.py:292-303 | Step 4: seq becomes the greater of current and given number, the id is appended, the state directory is fsync'd. |
| `StateDisk.Disk.Commit` | box/lib/causb/commitlog.py:339-407 | The method ends on exactly the disk and outcome of the commit plan, from any well-formed disk on which its calls succeed; on a standing box that is put-if-absent, and on a box at rest it ends at rest. |
| `StateDisk.Disk.Scan` | box/lib/causb/commitlog.py:426-455 | The boot loop computes the greatest marked number and the marked names, and removes exactly the unmarked directories. |
| `StateDisk.Disk.ReconcileOnBoot` | box/lib/causb/commitlog.py:410-465 | The method ends on exactly the disk of the boot script, and at rest from any settled medium. |
| `Registry.NextFreeIp` | box/lib/causb/registry.py:244-258 | The search returns the least allocatable unassigned address, and nothing iff every allocatable address is assigned. |
| `Registry.ChooseGives` | box/lib/causb/registry.py:261-277 | A usable hint wins, any other hint is as good as none. |
| `Registry.AllocateGives` | box/lib/causb/registry.py:280-327 | For any `overlay_cidr` argument: a known name keeps its address unconditionally; a new one gets hint or least free address of the chosen network; nobody else moves; distinct addresses and distinct keys are kept; membership in the registry's own pool is kept iff the address given is in it; both errors exactly when they should be. |
| `Registry.PoolSize` | box/lib/causb/registry.py:229-241 | The pool of an IPv4 network of prefix p has max(0, 2^(32-p) - 11) addresses. |
| `Registry.PoolIs` | box/lib/causb/registry.py:235-241 | For an IPv4 network of prefix p from `base` on, whichever of its addresses names it, the addresses that can be handed out are base + 10 to base + 2^(32-p) - 2. |
| `Registry.DefaultPool` | box/lib/causb/registry.py:235-241 | On 10.66.0.0/16 these are 10.66.0.10 to 10.66.255.254. |
| `Registry.FirstHost` | box/lib/causb/registry.py:244-258 | The first host of an empty registry gets base + 10 of whatever network is asked for, unless it brings a usable hint. |
| `Registry.NewEntryIs` | box/lib/causb/registry.py:315-327 | A new host's entry holds the address and the key's hash and nothing else, and nothing else changes. |
| `Registry.KeyIsTakenAtOnce` | box/lib/causb/registry.py:310-314 | A second new host with the key of a first one is refused even before `record` has been called for the first. |
| `Registry.RoomForAll` | box/lib/causb/registry.py:244-258 | With fewer hosts than that, allocation never reports an exhausted pool. |
| `Registry.SignKeeps` | box/lib/causb/registry.py:280-350 | Allocate then record moves no known host and shares no address; it keeps keys apart iff no other host already holds the key. |
| `Registry.RekeyCanShareAKey` | box/lib/causb/registry.py:307-314 | The key conflict check is skipped for a known name, so a re-key can give two hosts one key. |
| `RegistryFile.Save` | box/lib/causb/registry.py:214-226 | Leaves the new registry in place, settled. |
| `RegistryFile.SaveIsAtomic` | box/lib/causb/registry.py:214-226 | A power cut after any of its calls leaves the old registry or the new one, whole; after the last call always the new one. |
| `Rebuild.Reconcile` | box/lib/causb/registry.py:382-437 | The loop over the sorted records computes the replay of the specification. |
| `Rebuild.RebuildShows` | box/lib/causb/registry.py:387-396 | A rebuild keeps for each host the address of its least-keyed record and everything else of its greatest-keyed one, in whatever order the records are listed. |
| `Rebuild.RebuildMeans` | box/lib/causb/registry.py:419-437 | In plain numbers: the address is that of a record of the host with the lowest number and among those the lowest key hash; key, hash and certificate details are those of one with the highest number and among those the highest hash. |
| `Rebuild.IpOrderFree` | box/lib/causb/registry.py:399-416 | A host's rebuilt address is the same for every listing order iff its least-keyed records agree on the address. |
| `Rebuild.OrderFree` | box/lib/causb/registry.py:399-416 | The whole rebuilt registry is the same for every listing order iff, besides, the greatest-keyed records of each host agree on everything else. |
| `Rebuild.TieMovesTheAddress` | box/lib/causb/registry.py:413-415 | Two records with one key and two addresses rebuild to whichever is listed first: the address is not fixed under every tie. |
| `Stability.RebuildIsLive` | box/lib/causb/registry.py:307-437 | For any history of signings with rising numbers, re-keys included, the rebuild of the emitted records in any order is the live registry, field by field. |
| `Stability.LogKeepsAddresses` | box/lib/causb/registry.py:53-64 | In the replay in commit order, which is what a boot rebuilds while numbers rise (`Fleet.InCommitOrder`), no later record changes the address of a committed name. |
| `Handler.ReachedIs` | box/handlers/sign-hosts:443-479 | The host loop ends where it was to stop, after the last host, or before the first host that cannot be allocated, with every host before that signed. |
| `Handler.HandleContained` | box/handlers/sign-hosts:437-490 | One handler run whose records are committed: every committed name stays live where a boot would put it iff the registry was saved or every finished host was in it already. Nothing is asked of the numbers. |
| `Handler.ScanRestores` | box/bin/ca-usb-run:393-402 | The rebuild from any scan of the committed records knows exactly the committed names, each under the address of one of its records; and when the least-keyed records agree it puts every one where they say. |
| `Handler.MovesExactly` | box/lib/causb/registry.py:387-416 | One handler run whose records are committed: in every scan order a boot puts every committed host where a boot put it before, iff no finished host is committed, signed for another address, and recorded under a key that does not sort after its deciding one. |
| `Handler.HeldNeverMoves` | box/lib/causb/registry.py:307-314 | A host that is live where boots put it is signed for that address, so only one lost from the live registry can be moved. |
| `Handler.ResignedElsewhere` | box/handlers/sign-hosts:437-490 | It does happen: a job stopped before the save records a new host; a job of a lower number signs another host, which gets that address, and the first host again, which gets another; the next boot, in any scan order, moves the first host there. |
| `Handler.CertificatesHeld` | box/handlers/sign-hosts:443-479 | Every certificate a run has written names a host live under its address iff the registry was saved or each host with a certificate, the one without a record included, was in it already. |
| `Handler.CertificatesCollide` | box/lib/causb/registry.py:307-327 | The certificates of a run keep apart from all committed ones and from each other iff no host is signed for the address of another's certificate that the live registry does not hold. |
| `Handler.LostAddressIsReused` | box/handlers/sign-hosts:472-479 | A job that gets as far as the record of a new host and does not save the registry, be it a job of that one host stopped before the save: the next new host gets the same address and both are in the log. |
| `Handler.OrphanIsReused` | box/handlers/sign-hosts:455-479 | A handler stopped between a new host's certificate and its record: no rebuild brings that address back and the next new host is signed for it. |
| `Fleet.RebuildIsReplay` | box/bin/ca-usb-run:393-402 | With rising record numbers the boot rebuild from the committed records, in any scan order, is the replay of the commits in their order, field by field. |
| `Fleet.EventKeeps` | box/bin/ca-usb-run:761-803 | For each event on disk and registry together, exactly: a powered event loses hold of a committed address iff it commits records of a handler that did not save the registry and had finished a host not in it; it changes where some boot puts a committed host iff it commits records that move one; two certificates come to share an address iff it commits one for an address of a certificate that is not held. And a power failure ends with every committed name live where boots put it, whatever was lost before. |
| `Fleet.RunKeeps` | box/bin/ca-usb-run:393-404 | Over every history the invariant is kept, the committed records and certificates only grow, and committed addresses are held unless one was lost since the last power failure or that found tied records that disagree. |
| `Fleet.DiskRuns` | box/lib/causb/freshness.py:49-82 | The disk of such a history is a run of the box alone, so a job finds an up-to-date seq iff it is not presented behind a lagging kill. |
| `Fleet.SharedOnlyByCollision` | box/lib/causb/registry.py:41-64 | Over every history from a box without shared addresses, records or no records: no two committed certificates share an address iff no event commits a certificate for the address of a committed one that the live registry does not hold. |
| `Fleet.AddressesAreStable` | box/lib/causb/registry.py:41-64 | Over every history in which no address is lost hold of: committed names are live where boots put them, no two live hosts share an address, and a committed name keeps its live address for ever, whatever the numbers, the seq and the scan orders. |
| `Fleet.CommittedAddressesStay` | box/lib/causb/registry.py:53-64 | Over every history, losses included: boots after each event put the committed hosts where boots before it did, in every scan order, iff no event moves one; and then every power failure of the history ends with them live there. |
| `Fleet.MovesOnlyBehind` | box/handlers/sign-hosts:466-470 | With records numbered `job_seq * 1000 + index`, an event that moves a committed host is a job presented behind a lagging kill that signs again a host that is not live where boots put it. |
| `Fleet.InCommitOrder` | box/lib/causb/registry.py:399-416 | With such numbers, over every history in which each job added behind a lagging kill is numbered above all before it, record numbers rise in commit order and each boot rebuilds the replay of the commits, field by field. |
| `Extract.SafeNameMeans` | box/lib/causb/extract.py:193-229 | The string test holds iff the components are `manifest.json` alone or two to four under `payload`, none empty or `..`. |
| `Extract.SplitJoins` | box/lib/causb/extract.py:217-221 | The components joined by `/` give the name back, and none of them holds a `/`. |
| `Extract.JoinSplits` | box/lib/causb/extract.py:217-221 | ... and no other list of components does. |
| `Extract.SafeNameIs` | box/lib/causb/extract.py:193-229 | Without splitting: a name is safe iff it is `manifest.json` or starts with `payload/`, has at most three slashes, and neither nothing nor `..` stands between two slashes or a slash and an end of the name. |
| `Extract.NoWayUp` | box/lib/causb/extract.py:199-211 | No name that holds `/../` or `//`, starts with `../` or `/`, or ends in `/..` or `/` is safe, whatever else is in it. |
| `Extract.TooDeep` | box/lib/causb/extract.py:218-219 | No name with four slashes or more is safe. |
| `Extract.TargetSpellsName` | box/lib/causb/extract.py:263-289 | A name without `.` components is written at the path that, joined by `/`, is that name. |
| `Extract.DotAddsNothing` | box/lib/causb/extract.py:222-229 | A `.` component is not refused and adds nothing to the path, so `payload/./x` is `payload/x`. |
| `Extract.Dest.WriteMember` | box/lib/causb/extract.py:263-289 | Writes iff the leaf is not `.` and names no directory and nothing on the way is a file; otherwise no file changes and only directories on the way appear. |
| `Extract.Dest.ExtractInto` | box/lib/causb/extract.py:312-385 | Into an empty destination: success iff all members are regular, safely named, readable, within both caps and none is a proper path prefix of another; then the tree is exactly last-writer-wins; a failure carries the first failing member's reason; in every outcome only `manifest.json` and paths under `payload` change. |
| `Extract.ConfinedIsPlain` | box/lib/causb/extract.py:263-289 | Whatever the stream and the outcome, every file and directory that is new lies at a path of one to four components under `payload`, or at `manifest.json`, and no component is empty, `.` or `..` or holds a `/`. |
| `Extract.AcceptableMeans` | box/lib/causb/extract.py:330-385 | A stream is acceptable iff it has at most 64 members of at most 8388608 bytes together, all of them regular, readable, safely named, not negative in size and not ending in a `.` component, and none is a path above another. |
| `Extract.WhyRefused` | box/lib/causb/extract.py:330-385 | The reason given is that of the first member to fail: too many or too large in all is `cap_exceeded`, an unsafe name or a type other than regular `path_traversal`, anything else `bad_tar`, each only if no earlier check failed. |
| `Extract.NextMember` | box/lib/causb/extract.py:330-385 | With everything before it accepted, a member is acceptable iff the checks pass and the tree lets it be written. |
| `Extract.LastWriterWins` | box/lib/causb/extract.py:263-289 | A file holds the data of the last member that names it. |
| `Collect.Collector.WriteDest` | box/lib/causb/collect.py:289-318 | Creates the file iff the name is free and no file is on the way. |
| `Collect.Collector.CollectAll` | box/lib/causb/collect.py:374-427 | With nothing else running and an empty destination: success iff real directories to depth 4, single-link regular files of at most 4 components and at most 64 of them; then the destination is exactly the tree's files with one true entry each; no outcome copies anything else. |
| `Collect.FineMeans` | box/lib/causb/collect.py:395-422 | The trees taken are those in which every path leads to a directory or a single-link regular file and none is longer than four names. |
| `CollectRace.CopiesComeFromPinned` | box/lib/causb/collect.py:232-260 | For every interleaving with any mutator, down to the single chunk read: each leaf opened and each file copied from was, at the very call that opened it, a direct entry of a directory pinned by then; each pinned directory but the root was so at the `lstat` that found it; each file copied from was found to be regular by `fstat` first; each copied chunk stood at its place in it when it was read. |
| `CollectRace.NothingFromOutside` | box/lib/causb/collect.py:26-50 | If outside inodes are never direct entries of inside directories, none is ever read, whatever links are swapped in between the calls. |
| `CollectRace.ByPathLeaks` | box/lib/causb/collect.py:26-37 | A whole run of the same walk opening leaves by path string, under the same hypothesis in every state, copies an outside file; it is not a run of the walk as it is. |
| `Button.PressWaiter.Feed` | box/lib/causb/button.py:270-280 | One call equals one scan of buffer plus data; unless it fires, fewer than 24 bytes stay buffered. |
| `Button.DecodeEncoded` | box/lib/causb/button.py:85-85 | Decoding 24 bytes gives the type, code and signed value whose bytes, low byte first, stand at 16, 18 and 20, whatever the time bytes. |
| `Button.EveryChunkEncodes` | box/lib/causb/button.py:274-275 | ... and every 24 bytes are the encoding of what they decode to. |
| `Button.ScanDetects` | box/lib/causb/button.py:253-263 | A scan fires iff the stream holds a matching press followed by a matching release; otherwise what is left is the unread tail. |
| `Button.ConfirmedMeans` | box/lib/causb/button.py:253-280 | In bytes: a stream is confirmed iff at some multiple of 24 it holds a key event of that code with value 1 and at a later one with value 0. |
| `Button.PressReleaseConfirms` | box/lib/causb/button.py:253-263 | The bytes of a press and then a release confirm; a press alone or the two the other way round do not. |
| `Button.ChunkingIsInvisible` | box/lib/causb/button.py:253-280 | For every cut of the stream into chunks, the first call to fire is the one whose chunk completes the first such release; between calls that do not fire the buffer is the unread tail, shorter than an event. |
| `Button.WaitPressRelease` | box/lib/causb/button.py:284-325 | After the drain, confirms iff the key was not already held and a press and a release were both read at turns the deadline still allowed. |
| `Button.QueuedNeverCounts` | box/lib/causb/button.py:284-296 | No read up to the one that ends the drain counts. |
| `Button.LateNeverCounts` | box/lib/causb/button.py:311-325 | Nothing read from the first turn past the deadline on counts. |
| `Button.TimelyCounts` | box/lib/causb/button.py:311-325 | As long as the deadline is not reached every read counts, in order, one for each turn at which the device is ready. |
| `KeyBits.ParseKeyBits` | box/lib/causb/button.py:122-141 | The nested loops return exactly the advertised codes. |
| `KeyBits.PrintedIsAdvertised` | box/lib/causb/button.py:122-141 | Any set of codes printed as 64-bit words, most significant first, is advertised again exactly. |
| `KeyBits.EncodingsAgree` | box/lib/causb/button.py:228-239 | For the little-endian bytes of the same words the byte bitmap test holds iff the code is advertised. |
| `Mountctl.Umount` | box/lib/causb/mountctl.py:141-160 | At most `max_attempts` calls; success iff some call within them exits 0 with every earlier one failing busy; only busy is retried; with c calls the pauses add up to initial * (2^(c-1) - 1). |
| `Mountctl.SaysBusyMeans` | box/lib/causb/mountctl.py:141-160 | A failure is a busy one iff the error text holds the letters of `busy` one after another, anywhere and in either case. |

## Left out

- Failing system calls: a call that the disk refuses (out of space, input/output errors) ends the script in the source; the methods require that their calls succeed, which is proved for every standing box.
- Text encodings: JSON, decimal and hex text, base64 and dotted quads are kept decoded; a consumed id is one line without surrounding blanks, an unreadable seq file is a distinct content.
- SHA-256 is symbolic: a digest names its bytes in the commit log, and is an arbitrary number in the registry.
- RemoveTree.RemoveRuns: links are leaves of the disk model, so that a link is refused, skipped or unlinked is modelled and what it points to is any path (`RemoveTree.TargetsStay`); a `DONE` or cache file that is itself a link is not followed.
- File modes, ownership, warnings on stderr, partial `write` calls, and damage to a committed `DONE` on the medium.
- Histories.StepKeeps: put-if-absent, `check` and number order are not stated for what jobs presented between a kill at the landing moment and the next power failure do; that such runs keep what is durable is (`Histories.CommittedForGood`), and what a power failure right after the kill does (`Histories.LandingCanBeLost`).
- A boot without a power failure before it, and two processes at work on the store at once.
- Negative numbers: `seq` is non-negative, as the manifest check ensures before `commit` is reached.
- IPv6 networks, hints in other notations than an address or junk, and registry entries whose address is not a canonical IPv4 address.
- `load` of `registry.json` and its shape check; the rebuild is taken to succeed (the source skips it, logging, on any error) and malformed records are taken as already skipped by the decoder.
- Fleet.EventKeeps: kills at the landing moment are excluded from the fleet's histories; and because the collection of the output directory is not joined to the model of the disk, a committed job carries exactly the records its handler wrote or none, with their certificates.
- Fleet.MovesOnlyBehind: supposes that no more than 64 records of a job are collected, which is the cap on collected files.
- Signing itself, and every handler but the host loop of `sign-hosts`.
- Extract.Dest.ExtractInto: component length limits and a destination that already holds links are not modelled, so names the file system itself would refuse count as writable.
- Extract.Dest.WriteMember: a tar member's data is taken as read in one piece, and may differ in length from its declared size.
- Collect.Collector.CollectAll: assumes reads and writes succeed; files are copied in one piece and listed in one order per directory, so neither the chunked loop nor the per-directory sort shows.
- CollectRace.CopiesComeFromPinned: the walk may make its calls in any order and an inode keeps its type while the walk runs; the link count test is not relied on; chunks are copied one by one, and that those of one file are written out in order is not said.
- Button.WaitPressRelease: the clock and `select` are a finite list of turns, at whose end the wait ends; the device lookup and the held-key ioctl are a parameter.
- KeyBits.ParseKeyBits: takes the tokens' values; reading hex digits is left out.
- Mountctl.Umount: the case folding of the error text covers ASCII letters, and any exit other than 0 counts as a failure.
- `verify.py`, `manifest.py`, `dispatch.py`, `led.py`, `nebulacli.py`, `audit.py`, `recovery.py`, and mounting: field checks, argument lists and device access whose members would be easy; only the caps of `config.py` are used.
