# Verified model of the compute node

A Dafny model of the parts of the compute node that allocate resources, rewrite the host's firewall
and decide what a confidential guest may run, with proofs of what they promise over whole runs.

- **The VM ledger.** `Ledger` says, one operation at a time and for every exit of every operation,
  what create, delete, add-forward and remove-forward do to the VM table, the used IPv4 offsets, the
  IPv6 allocations, the NUMA counters, the port-forward map, the state directory and the kernel
  ruleset. `VmManager` is the object itself, each method proved to move its fields as the ledger says.
  `LedgerSafety` proves the invariants of every run, `LedgerAgreement` exactly when kernel and disk
  keep agreeing with memory, `Reclaim` what each operation takes and gives back, `Recovery`,
  `RecoveredFirewall` and `RecoveredChains` what a restart rebuilds and reinstalls, `History` what holds over operations and any number of restarts, `Interleavings` the
  exclusivity of addresses and ranges when creations and deletions interleave at lock granularity.
  `Numa`, `Hugepages`, `Ipv4`, `Ipv6`, `PortForwards` are the allocators underneath.
- **The firewall.** `Nft` models the nftables kernel, `Packets` what its rules do to a packet, `Firewall`
  the generators and recognisers, `VmChains`, `Supervisor` and `DnatRules` the transformations, `Traffic`
  and `Routes` what these do to packets, `Translations` and `Startup` what they do to the installed port
  translations, `NftablesManager` the object that reads, builds batches and executes.
- **Measured boot.** `HostBoot` inserts hash-tree disks, chooses the command line (`Cmdline`) and
  writes the QEMU arguments; `GuestInit` is the guest's init script over every outcome of its
  commands; `MeasuredBoot` composes both sides.
- **Text and bytes.** `CpuList`, `Der`, `Signature`.

Assumptions and readings:

- Arithmetic is that of a release build: 32-bit and 64-bit overflow wraps.
- Kernel ruleset: handles are fresh; a batch is atomic; a chain can be deleted only when no rule of
  its table outside it jumps or goes to it, and its rules go with it; a rule may refer only to chains
  that exist. `goto` is in the model only so that acceptance of a teardown can be stated exactly.
  Packets are judged by the interfaces, connection state, protocol and destination port that the
  program's rules test; jumps are followed to any depth a lemma is asked for. The lemmas on traffic
  assume what the kernel enforces or the program never does otherwise: no rule leads to a base
  chain, and only base chains lead to supervisor chains.
  One flag per listing or batch says whether nft runs; where a listing and its batch fail alike, they
  share one.
- Operations of the ledger are atomic; outside steps (DHCP files, TAP devices, process start, file
  writes) are flags of the call. `draw` stands for what the IPv6 allocator answered, a listing for
  the arbitrary order of a hash map or a directory.
- Guest drives are virtio only, as the host writes them, so no `/dev/sda` appears. The kernel shows
  the guest the `-append` text as one line. The backend's own QEMU arguments contain no `-drive` or
  `-append`. Root hashes come from an abstract function of the image path.
- A NUMA topology lists each node once, being read from the numbered directories of sysfs. A failed
  IPv6 clean-up lock attempt is a flag.

Where code and comments differ, the model follows the code:

- The replay of port forwards is described as idempotent (crates/aleph-compute-node/src/vm/manager.rs:696);
  `DnatRules.AddForwardInstalls` shows each replay adds a copy, and
  `RecoveredFirewall.RecoveryAgreesExactlyWhen` when one rule each survives a recovery.
- Offset 255 is excluded as the broadcast address (crates/aleph-compute-node/src/vm/manager.rs:172-173);
  with a gateway ending in .1 it is offset 254 that yields .255. No claim about broadcast is made.
- A placement without hugepages is reported as 2M, so releasing it takes pages others hold; the exact
  condition is in `Numa.RunConservesExactlyWhen`.
- An empty or malformed cached root hash is accepted by the host; the exact condition under which the
  guest is still measured is in `MeasuredBoot.MeasuredBootExactlyWhen`.

## Model

| member | source | states |
|---|---|---|
| `MeasuredBoot.MeasuredBootExactlyWhen` | crates/aleph-compute-node/src/vm/manager.rs:255-309 | For every confidential, unencrypted VM with kernel, initrd and a disk, and every outcome of polling, veritysetup and mount: a guest that comes up runs only from disk 0 checked by its own hash tree against its own root hash (and its workload likewise from disk 1) if and only if every root hash it was given is non-empty hex; with such hashes some outcome does start it |
| `MeasuredBoot.MeasuredUpExactlyWhen` | nix/init.sh:163-255 | With usable hashes the guest comes up if and only if vda and vdb are each seen at one of 30 attempts, vda opens with vdb and its hash and mounts read-only, and with two or more disks the same holds of vdc and vdd; it is then up from exactly those read-only mounts |
| `MeasuredBoot.UnmeasuredUpExactlyWhen` | nix/init.sh:197-204 | With an empty root hash the guest comes up if and only if vda is seen and the workload, if it has a hash, opens and mounts read-only; its root is then vda itself, read-only if that mounts, read-write if only that does |
| `MeasuredBoot.EmptyHashBootsUnmeasured` | crates/aleph-compute-node/src/verity.rs:30-46 | The failing input: an empty cached root hash lets the raw first disk be booted |
| `MeasuredBoot.EncryptedBoot` | nix/init.sh:85-145 | An encrypted VM comes up exactly when a root device appeared, the passphrase file passed the last test and luksOpen and mount succeeded, and then runs only from disk 0 |
| `MeasuredBoot.DevicesOfLayout` | crates/aleph-compute-node/src/vm/manager.rs:255-299 | After the insertions vda, vdb, vdc, vdd are disk 0, its hash tree, disk 1, its hash tree, and there is no sda |
| `HostBoot.Prepare` | crates/aleph-compute-node/src/vm/manager.rs:246-309 | The in-place insertions give the measured layout, the hashes go to the matching disk, and either hash failing refuses the boot |
| `HostBoot.GuestSeesConfig` | crates/aleph-compute-node/src/qemu/args.rs:50-102 | Reading the built arguments back gives exactly the configured disks in order, and the command line exactly when kernel and initrd are both given |
| `HostBoot.DriveRoundTrip` | crates/aleph-compute-node/src/qemu/args.rs:83-102 | A drive option written for a disk that passes the format and comma checks reads back as that disk: path, format, readonly |
| `HostBoot.QemuReadsMachine` | crates/aleph-compute-node/src/qemu/args.rs:38-81 | Read back, the arguments give the VM's vCPUs, memory, TAP device and MAC, and its kernel and initrd exactly when it has both |
| `VmManager.VmManager.SpawnedMachine` | crates/aleph-compute-node/src/vm/manager.rs:338-349 | QEMU is started on the VM's own TAP device, with the MAC of the address it was given and the vCPUs and memory it asked for |
| `HostBoot.BuildQemuCommand` | crates/aleph-compute-node/src/qemu/args.rs:29-107 | The arguments are built in section order, and building panics exactly on the first disk with another format or a comma in its path |
| `GuestInit.RunInit` | nix/init.sh:43-270 | The script with its polling loops comes to the outcome the boot specification gives for every world |
| `GuestInit.WaitForRoot` | nix/init.sh:51-62 | The root device is the one seen at the earliest of 30 attempts, vda before sda |
| `GuestInit.WaitFor` | nix/init.sh:168-178 | A device is found exactly when one of 30 attempts sees it |
| `GuestInit.PassphraseByTimeout` | nix/init.sh:107-122 | A passphrase that stays once injected is accepted exactly when it is there by the test after 3000 attempts |
| `Cmdline.PrintParseExactlyWhen` | crates/aleph-compute-node/src/verity.rs:89-106 | Printing then matching with the greedy patterns recovers both optional hashes if and only if they are hex; then luks and ip are never set |
| `Cmdline.ReadsRoothash` | nix/init.sh:46 | roothash is the printed root hash and is never taken out of workload_roothash |
| `Cmdline.ReadsWorkloadRoothash` | nix/init.sh:47 | workload_roothash is the printed workload hash, and empty when none was printed |
| `Cmdline.EncryptedLine` | crates/aleph-compute-node/src/verity.rs:94-95 | The encrypted line sets luks to 1 and neither hash nor ip |
| `Cmdline.LuksIsUnset` | nix/init.sh:28-48 | No verity or plain line with hex hashes matches the luks or the ip pattern |
| `LedgerSafety.EveryRunIsSound` | crates/aleph-compute-node/src/vm/manager.rs:156-623 | In every run of create, delete, add and remove forward, with any step failing: offsets, addresses and IPv6 ranges of live VMs are exclusive, live offsets are used, ranges stay in the pool, every forward has a live owner, NUMA counters stay within their totals |
| `LedgerAgreement.EveryRunTranslatesItsForwards` | crates/aleph-compute-node/src/vm/manager.rs:527-601 | In every run between restarts in which the rule removals that are needed succeed, and everything else fails freely, after each operation the rules of the supervisor prerouting chain send every packet exactly where the port-forward map does, (protocol, host port) to (guest IP, VM port), by one rule each |
| `LedgerAgreement.AgreedPacketsArrive` | crates/aleph-network/src/nftables/rules.rs:180-207 | In agreement, a prerouting chain of forwards only sends a packet for a forwarded port to its owner's IP and VM port, and lets every other packet pass |
| `LedgerAgreement.AgreesExactlyWhen` | crates/aleph-network/src/nftables/mod.rs:277-319 | Sending every packet where the map does is the same as having exactly the map's rules installed |
| `LedgerAgreement.StepAgreesExactlyWhen` | crates/aleph-compute-node/src/vm/manager.rs:441-601 | One operation keeps every packet going where the port-forward map says if and only if the removals it needs succeed; it never adds a second rule for a forward |
| `LedgerAgreement.StepMirrorsExactlyWhen` | crates/aleph-compute-node/src/vm/manager.rs:393-623 | One operation keeps the state directory a mirror of memory if and only if: a creation saved or failed, a deletion unlinked or found no VM, an addition saved or failed, a removal of a forward had nft and saving work or found no forward |
| `History.EveryHistoryIsRecoverable` | crates/aleph-compute-node/src/vm/manager.rs:156-743 | Any mix of operations and restarts whose files work, with nft failing wherever no file is at stake, leaves a sound ledger, a well-formed kernel and a mirroring disk |
| `History.HistoryMirrorsExactlyWhen` | crates/aleph-compute-node/src/persistence.rs:30-83 | The disk mirrors memory throughout a history with restarts if and only if every operation's files work and every restart reads every file |
| `History.EveryCrashIsRecovered` | crates/aleph-compute-node/src/vm/manager.rs:630-743 | A crash at any point of such a history, after any number of earlier ones, followed by recovery in any reading order, gives back the live VMs, offsets, IPv6 ranges and forwards of that moment |
| `History.LostRemovalComesBack` | crates/aleph-compute-node/src/vm/manager.rs:588-601 | The failing input: a forward whose removal nft refuses is gone from memory, stays in the file, and a restart brings it back |
| `History.EventAgreesExactlyWhen` | crates/aleph-compute-node/src/vm/manager.rs:441-743 | One operation or restart keeps kernel and memory in agreement if and only if the removals it needs succeed, or the restart finds nothing foreign installed and replays every recovered forward that had not survived |
| `History.HistoryTranslatesExactlyWhen` | crates/aleph-compute-node/src/vm/manager.rs:441-743 | Through any number of restarts, while files work and each restart finds the supervisor chains, the kernel sends every packet exactly where the port-forward map says throughout if and only if every event does its part |
| `LedgerSafety.CreateEffect` | crates/aleph-compute-node/src/vm/manager.rs:156-431 | A failed creation leaves VMs, files and forwards alone and may keep only an offset, its own IPv6 entry, NUMA share and chains; a successful one adds exactly one VM, at the lowest free offset, with the drawn range |
| `LedgerAgreement.CreateKeepsTranslations` | crates/aleph-compute-node/src/vm/manager.rs:225-378 | Whatever a creation comes to, at any of its exits, the installed translations are unchanged |
| `LedgerAgreement.DeleteAgreesExactlyWhen` | crates/aleph-compute-node/src/vm/manager.rs:467-477 | After a deletion the kernel translates the other VMs' forwards plus exactly the removals that failed; kernel and memory agree if and only if every removal succeeded |
| `LedgerAgreement.RemoveAgreesExactlyWhen` | crates/aleph-compute-node/src/vm/manager.rs:588-601 | Removing a forward keeps kernel and memory in agreement if and only if nft ran or there was no such forward, since memory forgets it first |
| `LedgerSafety.AddForwardEffect` | crates/aleph-compute-node/src/vm/manager.rs:534-585 | A failed addition changes nothing; a successful one takes an unused port, the requested one or the lowest free from 10000 |
| `LedgerSafety.DeleteKeepsAddresses` | crates/aleph-compute-node/src/vm/manager.rs:504-508 | A deletion frees exactly its own offset |
| `Reclaim.DeleteClears` | crates/aleph-compute-node/src/vm/manager.rs:467-491 | With nft running for the teardown, no trace of the VM is left if and only if no goto from elsewhere holds on to its chains, and then exactly its traces and the prerouting rules of its removed forwards are gone; in every case all other entries survive and none is new |
| `Reclaim.DeleteLeavesNoTrace` | crates/aleph-compute-node/src/vm/manager.rs:491 | With nft running and no foreign goto in the ruleset, no entry of the kernel is a trace of the deleted VM |
| `Reclaim.DeleteFreesEntries` | crates/aleph-compute-node/src/vm/manager.rs:441-513 | The VM's offset, IPv6 entry, forwards, record and, if unlinked, file are gone; every other entry of each table is unchanged |
| `Reclaim.DeleteReleasesShare` | crates/aleph-compute-node/src/vm/manager.rs:452-465 | The vCPU and page counters of the VM's node fall by exactly what it held, to zero at most, and no other node's change |
| `Reclaim.DeleteUndoesCreate` | crates/aleph-compute-node/src/vm/manager.rs:156-517 | A successful creation followed by a deletion restores every table and the ruleset, and the NUMA counters if and only if giving the share back takes no pages of others |
| `Reclaim.FailedCreateLeaves` | crates/aleph-compute-node/src/vm/manager.rs:172-431 | Error by error, exactly what a failed creation leaves: its offset unless it fails before taking one, its range where no clean-up releases it, its chains between firewall and start, its NUMA share after a bad disk, and after a failed start only what giving back takes from others |
| `Reclaim.CreateTakes` | crates/aleph-compute-node/src/vm/manager.rs:225-415 | A successful creation leaves the chains set up and the share taken, and its record names node, page size, TAP device, vCPUs, memory and the disks it was booted with |
| `Reclaim.CreateChargesShare` | crates/aleph-compute-node/src/vm/manager.rs:317-325 | The recorded node's vCPU counter grows by the VM's vCPUs and, for a confidential VM only, its page counter by the VM's memory; no other node's changes |
| `LedgerSafety.LiveVmsDiffer` | crates/aleph-compute-node/src/network/tap.rs:17-20 | Any two live VMs differ in address, in MAC and in IPv6 range |
| `VmManager.VmManager.CreateVm` | crates/aleph-compute-node/src/vm/manager.rs:156-415 | The method moves every field as the ledger says for each exit, keeps the invariant, and starts QEMU with the prepared disks and command line |
| `VmManager.VmManager.TakeOffset` | crates/aleph-compute-node/src/vm/manager.rs:174-184 | The lowest offset in 1..254 that is not used is marked used |
| `VmManager.VmManager.DeleteVm` | crates/aleph-compute-node/src/vm/manager.rs:441-517 | The method moves every field as the ledger says and keeps the invariant |
| `VmManager.VmManager.AddPortForward` | crates/aleph-compute-node/src/vm/manager.rs:527-585 | The reservation is rolled back exactly when nft fails; otherwise map, kernel and file change together; the invariant is kept |
| `VmManager.VmManager.RemovePortForward` | crates/aleph-compute-node/src/vm/manager.rs:588-601 | Map, kernel and file change as the ledger says, also when nft fails; the invariant is kept |
| `VmManager.VmManager.UpdatePersistedPortForwards` | crates/aleph-compute-node/src/vm/manager.rs:613-623 | The file is rewritten with a listing of exactly the VM's forwards when it is there |
| `VmManager.VmManager.RecoverVms` | crates/aleph-compute-node/src/vm/manager.rs:630-743 | The loop over the readable files in any order brings every record back, one after the other |
| `VmManager.VmManager.LoadAllVms` | crates/aleph-compute-node/src/persistence.rs:50-73 | The listing names every VM whose file can be read once, in some order; other files are skipped |
| `Recovery.RecoveryRebuilds` | crates/aleph-compute-node/src/vm/manager.rs:630-743 | From a mirrored disk, for every reading order, a fresh manager has exactly the VMs whose files were read, their offsets, IPv6 ranges and forwards: the whole port-forward map when all were |
| `Recovery.RecoveredIsSound` | crates/aleph-compute-node/src/vm/manager.rs:630-743 | The rebuilt ledger is sound whichever files were read, and mirrors the disk if and only if all were |
| `Recovery.RangeIsFree` | crates/aleph-compute-node/src/vm/manager.rs:680-685 | A saved IPv6 range is granted again whatever was restored before it |
| `RecoveredFirewall.RecoveryInstalls` | crates/aleph-compute-node/src/vm/manager.rs:692-715 | Over any kernel with the supervisor chains the replay adds exactly one rule for each forward it reaches: owner running, filter chain set up or still there, nft running for it |
| `RecoveredFirewall.RecoveryAgreesExactlyWhen` | crates/aleph-compute-node/src/vm/manager.rs:692-715 | After recovery the kernel translates exactly the recovered port-forward map if and only if nothing foreign was installed and each recovered forward was replayed or had survived; each has one rule if and only if that was so before and none was replayed over a surviving one |
| `RecoveredFirewall.RebootLosesTranslations` | crates/aleph-compute-node/src/vm/manager.rs:692-715 | The failing input: rules flushed and every unit stopped leave all forwards in memory and no packet sent anywhere |
| `RecoveredChains.RecoverySetsUp` | crates/aleph-compute-node/src/vm/manager.rs:697-700 | After recovery every running VM whose file was read and whose setup could run has its chains, jumps and rules for its saved TAP device, whatever the kernel held before and whatever was recovered after it |
| `Reclaim.RecoveryTakesShareAgain` | crates/aleph-compute-node/src/vm/manager.rs:658-676 | A running VM takes its share again on the node its file names if and only if that node has room; nothing else changes a counter |
| `Interleavings.EveryInterleavingIsExclusive` | crates/aleph-compute-node/src/vm/manager.rs:164-184 | In every interleaving of creations and deletions at lock granularity every held offset is used and has one holder |
| `Interleavings.HoldersDiffer` | crates/aleph-compute-node/src/vm/manager.rs:185-186 | At every moment live VMs, creations under way and a deletion that still holds its offset differ in offset, address and MAC |
| `Interleavings.FreeIsItsOwn` | crates/aleph-compute-node/src/vm/manager.rs:504-508 | The offset a deletion frees is its own, held by nobody else, and all other holders keep theirs |
| `Interleavings.NoOverlapLosesNone` | crates/aleph-compute-node/src/vm/manager.rs:164-431 | In every interleaving without overlapping creations of one id, failures and clean-ups included, no insertion replaces a live VM and every live VM keeps its own IPv6 range |
| `Interleavings.CanReplaceExactlyWhen` | crates/aleph-compute-node/src/vm/manager.rs:411 | With every creation under way ready, some order of insertions replaces a live VM if and only if two of them are for one id or one is for a live id |
| `Interleavings.CanDisownExactlyWhen` | crates/aleph-compute-node/src/vm/manager.rs:418-431 | With every creation under way ready, completing or cleaning them up can take a live VM's IPv6 range away if and only if two are for one id, one is for a live id, or one has lost its own range |
| `Interleavings.SoundLedgerIsQuiet` | crates/aleph-compute-node/src/vm/manager.rs:441-508 | A sound ledger, so a new or recovered manager, is a start of the interleavings |
| `Interleavings.DoubleCreationLosesTheFirst` | crates/aleph-compute-node/src/vm/manager.rs:164-170 | The failing trace: two creations of one id pass the duplicate check, the second insertion replaces the first VM and its offset stays used |
| `Interleavings.FailedDoubleDisownsTheFirst` | crates/aleph-compute-node/src/vm/manager.rs:217-222 | The failing trace: the second creation fails, and its clean-up releases the live VM's IPv6 range |
| `Routes.AddForwardRoutes` | crates/aleph-network/src/nftables/rules.rs:180-234 | After an accepted addition a packet for the host port that passed the prerouting chain before goes to exactly the guest IP and VM port, and one for the VM port that passed the VM's filter chain is accepted there; every other packet fares as before |
| `Routes.AddForwardSends` | crates/aleph-network/src/nftables/rules.rs:180-207 | An accepted addition adds exactly (guest IP, VM port) to where packets of that protocol and host port are sent, and nothing for any other packet |
| `DnatRules.AddForwardInstalls` | crates/aleph-network/src/nftables/mod.rs:277-319 | An accepted addition adds exactly one copy of its own translation; replaying it adds a further copy |
| `DnatRules.AddForwardAccepted` | crates/aleph-network/src/nftables/mod.rs:285-300 | The addition is accepted exactly when nft runs and the prerouting chain and the VM's filter chain are found |
| `DnatRules.RemoveForwardClears` | crates/aleph-network/src/nftables/mod.rs:322-364 | A removal is always legal and clears every copy of every rule of that port and protocol and no other translation |
| `Translations.SetupKeeps` | crates/aleph-network/src/nftables/mod.rs:174-264 | Setting a VM up changes no translation |
| `Translations.TeardownKeeps` | crates/aleph-network/src/nftables/mod.rs:267-272 | Tearing a VM down changes no translation, also when nft is gone for either half of it |
| `Translations.RemoveAllClears` | crates/aleph-compute-node/src/vm/manager.rs:467-477 | A series of removals with any pattern of failures leaves exactly the translations whose removal failed |
| `VmChains.SetupIsAccepted` | crates/aleph-network/src/nftables/mod.rs:174-264 | On a well-formed kernel with the supervisor chains the batch is legal and only appends the missing items |
| `Traffic.SetupRoutes` | crates/aleph-network/src/nftables/mod.rs:174-264 | After setting up a VM without trace, a packet from its TAP device to the external interface is masqueraded through the supervisor nat chain and accepted through the filter chain, in ip6 too when enabled and there, unless an earlier rule decides; every other packet, the reverse direction among them, fares as before |
| `Traffic.SetupKeepsTidy` | crates/aleph-network/src/nftables/mod.rs:174-264 | Setup leaves jumps and base chains such that the next VM's setup routes likewise |
| `VmChains.SetupIsIdempotent` | crates/aleph-network/src/nftables/mod.rs:174-264 | After setup the same call emits no command |
| `VmChains.TeardownExactly` | crates/aleph-network/src/nftables/mod.rs:375-421 | Teardown is accepted exactly when no foreign goto holds on to a chain of the VM, jumps going before chains, and then removes the VM's trace and nothing else |
| `VmChains.TeardownClearsExactlyWhen` | crates/aleph-network/src/nftables/mod.rs:267-272 | With nft running, no trace of the VM is left if and only if no foreign goto holds on to one of its chains |
| `VmChains.TeardownUndoesSetup` | crates/aleph-network/src/nftables/mod.rs:174-272 | On any ruleset with the supervisor chains and no trace of the VM, setup then teardown restores the ruleset exactly |
| `VmChains.TeardownSpares` | crates/aleph-network/src/nftables/mod.rs:267-272 | Every entry that is no trace of the VM survives its teardown, wherever it fails |
| `VmChains.OtherVmUntouched` | crates/aleph-network/src/nftables/mod.rs:267-272 | What setup wrote for another VM survives this VM's teardown |
| `Supervisor.InitializeIsIdempotent` | crates/aleph-network/src/nftables/mod.rs:58-158 | Initialising an initialised kernel emits no command and changes nothing |
| `Supervisor.PlanIsAccepted` | crates/aleph-network/src/nftables/mod.rs:58-158 | Once the base chains are there the whole batch is legal |
| `Supervisor.InitializeEnablesSetup` | crates/aleph-network/src/nftables/mod.rs:58-158 | Afterwards every setup finds its supervisor chains and the kernel is well formed |
| `Supervisor.InitializeHandsOver` | crates/aleph-network/src/nftables/mod.rs:73-149 | After initialisation a base chain on each hook jumps to its supervisor chain: postrouting to nat, forward to filter, prerouting to prerouting, and ip6 forward to filter when enabled |
| `Startup.InitializeAcceptsReplies` | crates/aleph-network/src/nftables/rules.rs:41-78 | A new supervisor filter chain has a rule that accepts exactly the packets of established or related connections |
| `Startup.InitializeIsInitial` | crates/aleph-network/src/nftables/mod.rs:58-158 | Initialisation of a kernel without forwards gives the state runs and recovery start from: chains in place, nothing translated |
| `Firewall.GeneratorIsRecognised` | crates/aleph-network/src/nftables/rules.rs:6-172 | Every recogniser accepts what its generator writes, at that family, table and chain |
| `Firewall.LandRecognises` | crates/aleph-network/src/nftables/chains.rs:4-35 | After a batch lands every item of the list is recognised, whether it was there or was added |
| `Nft.RemoveEverywhereExactly` | crates/aleph-network/src/nftables/mod.rs:375-421 | The removal batch is accepted exactly when no foreign goto refers to the chain, and removes the chain in every table, its rules and the jumps to it |
| `NftablesManager.RuleJumpsTo` | crates/aleph-network/src/nftables/rules.rs:239-250 | The loop finds a jump to the target exactly when one is in the rule |
| `NftablesManager.MatchesDnatRule` | crates/aleph-network/src/nftables/rules.rs:253-291 | The flag loop accepts exactly a rule of the chain with a matching port test and a translation |
| `NftablesManager.HasIifnameOifnameAccept` | crates/aleph-network/src/nftables/rules.rs:353-385 | The flag loop accepts exactly a rule with both interface tests and accept |
| `NftablesManager.GetTableForChain` | crates/aleph-network/src/nftables/mod.rs:558-571 | The early-return loop gives the table of the first chain of that family and name |
| `NftablesManager.NftablesManager.Initialize` | crates/aleph-network/src/nftables/mod.rs:58-158 | With nft present or missing at each listing, base chain and batch, the kernel is left as specified for that way out |
| `Supervisor.InterruptedOnlyAppends` | crates/aleph-network/src/nftables/mod.rs:58-158 | Wherever initialisation stops it has only appended, to a kernel still well formed |
| `Supervisor.SuccessIsComplete` | crates/aleph-network/src/nftables/mod.rs:58-158 | A reported success means the whole of it was done |
| `NftablesManager.NftablesManager.SetupVm` | crates/aleph-network/src/nftables/mod.rs:174-264 | The kernel changes as specified or not at all |
| `NftablesManager.NftablesManager.TeardownVm` | crates/aleph-network/src/nftables/mod.rs:267-272 | Two batches, each with nft present or missing, the second skipped when the first fails |
| `NftablesManager.NftablesManager.AddPortForward` | crates/aleph-network/src/nftables/mod.rs:277-319 | The kernel changes as specified or not at all |
| `NftablesManager.NftablesManager.RemovePortForward` | crates/aleph-network/src/nftables/mod.rs:322-364 | The kernel changes as specified or not at all |
| `NftablesManager.NftablesManager.RemoveChainEverywhere` | crates/aleph-network/src/nftables/mod.rs:375-421 | The two loops build the jump deletions, then the chain deletions |
| `Ipv4.OffsetRecovered` | crates/aleph-compute-node/src/network/tap.rs:84-89 | For every gateway and offset the difference of last octets returns the offset, also when the addition carries or wraps |
| `Ipv4.MacCollidesExactlyWhen` | crates/aleph-compute-node/src/network/tap.rs:17-20 | Two MACs coincide exactly when the addresses agree on their last three octets |
| `Ipv4.MacSpellsOctets` | crates/aleph-compute-node/src/network/tap.rs:17-20 | The MAC is 52:54:00 followed by the last three octets of the address in hex |
| `Ipv4.DistinctOffsets` | crates/aleph-compute-node/src/network/tap.rs:17-89 | Distinct offsets of one gateway give distinct addresses and MACs |
| `Ipv6.ContainsIffPrefix` | crates/aleph-network/src/ipv6/range_allocator.rs:55-61 | The endpoint test is prefix containment (section 2.3 of RFC 4291) |
| `Ipv6.OverlapsIffNested` | crates/aleph-network/src/ipv6/range_allocator.rs:64-72 | The interval test holds exactly when one prefix contains the other, and exactly when some address carries both |
| `Ipv6.EveryRunIsSafe` | crates/aleph-network/src/ipv6/range_allocator.rs:31-52 | In every run of requested, drawn and released ranges, allocations stay in the pool and pairwise disjoint |
| `Ipv6.DrawStaysInPool` | crates/aleph-network/src/ipv6/range_allocator.rs:75-101 | A drawn offset keeps the address in the pool without overflow |
| `Ipv6.Ipv6RangeAllocator.Allocate` | crates/aleph-network/src/ipv6/range_allocator.rs:31-47 | A requested range is granted exactly when inside and free; a drawn one is always inside, free and of the default length |
| `Ipv6.Ipv6RangeAllocator.RandomAddress` | crates/aleph-network/src/ipv6/range_allocator.rs:75-101 | The answer is the first usable draw from the source's draw range, or exhaustion after exactly 100 refused ones; pools without a draw range and prefix lengths that are none get their own error |
| `Ipv6.GrantedIsFree` | crates/aleph-network/src/ipv6/range_allocator.rs:31-101 | Whatever the allocator may grant is a proper range, inside the pool and free |
| `PortForwards.PortForwardState.AutoAllocate` | crates/aleph-network/src/ipv4/port_forward.rs:24-26 | The lowest free port from the start upwards, or none when all are taken |
| `PortForwards.PortForwardState.RemoveAllForVm` | crates/aleph-network/src/ipv4/port_forward.rs:53-64 | Exactly the VM's entries go, each returned once |
| `PortForwards.PortForwardState.ListForVm` | crates/aleph-network/src/ipv4/port_forward.rs:40-45 | Exactly the VM's entries, each once, in any order |
| `Numa.FirstFitComplete` | crates/aleph-compute-node/src/numa.rs:178-249 | The earliest candidate with room is chosen, 1G pages are used exactly when they can be, and allocation fails exactly when no candidate has room |
| `Numa.PlacementNames` | crates/aleph-compute-node/src/numa.rs:203-236 | A placement names a node of the topology, the hinted one if any, that node's CPUs in a text that parses back to them, and 1G pages only for memory that fills them |
| `Numa.PlacementCharges` | crates/aleph-compute-node/src/numa.rs:203-236 | Exactly the placed vCPUs, and for who uses hugepages the pages of the returned size, are added to the named node and nothing to any other |
| `Numa.ReleaseTakesClaim` | crates/aleph-compute-node/src/numa.rs:255-271 | Exactly the named vCPUs and pages come off the named node's counters, to zero at most, and nothing off any other |
| `Numa.EveryRunIsBounded` | crates/aleph-compute-node/src/numa.rs:178-271 | Whatever is allocated and released, no counter passes its node's total |
| `Numa.RunConservesExactlyWhen` | crates/aleph-compute-node/src/numa.rs:203-271 | Every counter equals the sum over live placements after every step exactly when no step gives back an untracked placement on a node with 2M pages in use |
| `Numa.UntrackedReleaseBreaksTheBooks` | crates/aleph-compute-node/src/numa.rs:203-213 | The failing run: a VM without hugepages comes and goes beside one holding two 2M pages and takes one of them with it |
| `Numa.ReleaseUndoesAllocateExactlyWhen` | crates/aleph-compute-node/src/numa.rs:255-271 | A matching release restores the state exactly unless the placement is untracked and the node has 2M pages in use |
| `Numa.NumaAllocator.Allocate` | crates/aleph-compute-node/src/numa.rs:178-249 | The candidate loop charges the chosen node only and returns its placement |
| `Numa.NumaAllocator.Release` | crates/aleph-compute-node/src/numa.rs:255-271 | The counters of the named node go down, saturating, in the pool of the given size |
| `Hugepages.MemoryBoundInEveryRun` | crates/aleph-compute-node/src/hugepages.rs:47-108 | In every run over budgeted nodes the hugepage memory of each granted node stays within RAM minus headroom and the 2M memory over all of them within the global limit |
| `Hugepages.BudgetIsLargest` | crates/aleph-compute-node/src/hugepages.rs:9-19 | A page count is within the budget if and only if, beside the 1G pages, it fits the node's cap and its RAM minus headroom |
| `Hugepages.GrantsTakeEffect` | crates/aleph-compute-node/src/hugepages.rs:70-97 | A node with room for a page takes exactly the granted count, any other keeps its own, and nothing else of a node changes |
| `Hugepages.TotalRamIsSum` | crates/aleph-compute-node/src/hugepages.rs:47-62 | Without a limit the nodes share the sum of their RAM, modulo 2^32 |
| `Hugepages.NodeBoundExactlyWhen` | crates/aleph-compute-node/src/hugepages.rs:9-19 | The per-node bound holds exactly when the 1G page count does not overflow the 32-bit product |
| `Hugepages.AllocateHugepages` | crates/aleph-compute-node/src/hugepages.rs:47-108 | The loop gives each node its grant and fails exactly when every node with a budget was refused |
| `CpuList.FormatCpuset` | crates/aleph-compute-node/src/numa.rs:275-315 | The range-carrying loop prints the canonical text |
| `CpuList.ParseCpulist` | crates/aleph-compute-node/src/numa.rs:318-332 | The insertion loop computes the set the text denotes, or its first error |
| `CpuList.RoundTripExactlyWhen` | crates/aleph-compute-node/src/numa.rs:275-332 | Printing then parsing returns the set exactly when it is not empty, for every set of 32-bit ids |
| `CpuList.FormatIsCanonical` | crates/aleph-compute-node/src/numa.rs:275-315 | The printed ranges ascend, are disjoint and not adjacent, and cover the set |
| `CpuList.FewestParts` | crates/aleph-compute-node/src/numa.rs:275-332 | No text that parses to the same set has fewer parts |
| `Der.EncodedLengthIsRead` | crates/aleph-tee/src/sev_snp/certs.rs:217-252 | For every tag, content and length form, short or long with up to 127 length bytes and leading zeros, the length read from the encoding, followed by anything, is the encoding's own |
| `Der.SplitOfEncodings` | crates/aleph-tee/src/sev_snp/certs.rs:190-252 | Two objects encoded in any of these forms and put together are split into exactly the two |
| `Der.SplitOfConcatenation` | crates/aleph-tee/src/sev_snp/certs.rs:190-252 | An encoded object followed by anything non-empty is cut off exactly |
| `Der.SplitLosesNothing` | crates/aleph-tee/src/sev_snp/certs.rs:190-212 | On success first followed by second is the input |
| `Der.SplitIsIdealExactlyWhen` | crates/aleph-tee/src/sev_snp/certs.rs:217-252 | The split agrees with unbounded lengths (sections 8.1.3.4, 8.1.3.5 and 10.1 of ITU-T X.690) exactly when the announced length fits 64 bits or still exceeds the data after wrapping |
| `Der.WrappedLengthIsAccepted` | crates/aleph-tee/src/sev_snp/certs.rs:217-252 | The failing input: fourteen bytes announcing 2^64 + 9 are split after byte nine |
| `Der.DerObjectLength` | crates/aleph-tee/src/sev_snp/certs.rs:217-252 | The shift loop computes the big-endian length modulo 2^64 |
| `Signature.ComponentPreservesValue` | crates/aleph-tee/src/sev_snp/verify.rs:231-259 | Reversing and stripping leading zeros keeps the integer |
| `Signature.ComponentIsShortest` | crates/aleph-tee/src/sev_snp/verify.rs:292-298 | The result is the shortest non-empty form, so it starts with a zero byte only as the single byte 0 |

## Left out

- LedgerAgreement.EveryRunTranslatesItsForwards: at operation granularity; crash points inside a deletion and forward additions racing with removals inside an operation are not modelled.
- Recovery.RecoveryRebuilds: says nothing of NUMA counters, which recovery does not restore exactly (page sizes are chosen anew, and a stopped VM's share is released later all the same); `Reclaim.RecoveryTakesShareAgain` says what each VM takes.
- Interleavings of NUMA placements, port forwards and the firewall; only the VM table, the offsets and the IPv6 allocations are interleaved.
- The IPv4 offset of a failed creation is not returned, as in the code; used offsets are a superset of live ones until a restart.
- The accept rule of a removed forward, in the VM's own filter chain, stays until the VM is torn down, as in the code.
- Removing all supervisor chains at shutdown (crates/aleph-network/src/nftables/mod.rs:161-171) and the port-in-use query: they use the same loops as the members above.
- A ruleset listing that fails for one family and is read as empty; jump loops, verdict maps and hook priorities of nftables.
- Root hashes containing newlines; the kernel's limit on command-line length.
- The guest's network set-up beyond the proof that no static address is ever parsed from the line.
- HTTP, gRPC, the proxy and scheduler, command-line parsing, TLS, JSON and hex text, and all cryptography.
- Process, TAP, DHCP, NDP and systemd calls beyond their success or failure; the contents of the files they write.
- Reconciliation, published-port translation, VM id validation and the one-shot secret guard, which are settled by a set argument or one branch.
- The attestation agent and the order in which it starts, except that the encrypted path needs the passphrase it delivers.
