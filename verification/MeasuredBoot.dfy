/** Host and guest together: what may run in a confidential VM. */
module MeasuredBoot {
  import opened Wrappers
  import opened VmConfigs
  import opened HostBoot
  import opened GuestInit
  import Cmdline

  /** The place of a virtio device in the drive list. */
  function Slot(dev: Dev): Option<nat> {
    match dev
    case Vda => Some(0)
    case Vdb => Some(1)
    case Vdc => Some(2)
    case Vdd => Some(3)
    case Sda => None
  }

  /** The disk the guest reads behind a device. */
  function Behind(disks: seq<Option<Disk>>, dev: Dev): Option<Disk> {
    if Slot(dev).Some? && Slot(dev).value < |disks| then disks[Slot(dev).value] else None
  }

  /** A world is possible for a drive list when only attached drives appear. */
  ghost predicate Possible(w: World, disks: seq<Option<Disk>>) {
    forall dev, n: nat :: w.sees(dev, n) ==> Behind(disks, dev).Some?
  }

  /** The mount is read-only, of an image checked by its own hash tree against its own root hash. */
  ghost predicate Checks(mount: Option<Mounted>, disks: seq<Option<Disk>>, image: Disk, hash: Option<string>) {
    && mount.Some? && mount.value.readonly && mount.value.source.Verity?
    && Behind(disks, mount.value.source.data) == Some(image)
    && Behind(disks, mount.value.source.tree) == Some(HashTree(image))
    && Some(mount.value.source.hash) == hash
  }

  /** Nothing but the measured images is in use: the guest is off, or its rootfs is the first
      disk, checked, and so is its workload when there is a second disk. */
  ghost predicate Measured(out: Outcome, disks: seq<Option<Disk>>, config: VmConfig, verity: Verity)
    requires config.disks != []
  {
    || out.PoweredOff?
    || (&& Checks(out.root, disks, config.disks[0], RootHash(config, verity))
        && (|config.disks| > 1 ==> Checks(out.workload, disks, config.disks[1], WorkloadHash(config, verity))))
  }

  /** A hash the guest can act on. */
  predicate Usable(hash: Option<string>) { hash.Some? && hash.value != "" && Cmdline.AllHex(hash.value) }

  /** The drives and the command line a guest is given. */
  datatype Guest = Guest(disks: seq<Option<Disk>>, lines: seq<string>)

  /** What QEMU shows the guest of a VM whose boot was prepared. */
  function GuestOf(config: VmConfig, plan: Plan, qmpSocket: string, tap: string, mac: string, tee: seq<Arg>): Guest {
    var args := Args(config.(disks := plan.disks), qmpSocket, tap, mac, plan.cmdline, tee);
    Guest(GuestDisks(args), GuestCmdline(args))
  }

  ghost predicate Shows(guest: Guest, config: VmConfig, plan: Plan) {
    && |guest.disks| == |plan.disks|
    && (forall i :: 0 <= i < |guest.disks| ==> guest.disks[i] == Some(plan.disks[i]))
    && guest.lines == if config.kernel.Some? && config.initrd.Some?
    && plan.cmdline.Some? then [plan.cmdline.value] else []
  }

  lemma GuestIsShownPlan(config: VmConfig, plan: Plan, qmpSocket: string, tap: string, mac: string, tee: seq<Arg>)
    requires FirstPanic(plan.disks).None?
    requires ValuesOf(tee, Drive) == [] && ValuesOf(tee, Append) == []
    ensures Shows(GuestOf(config, plan, qmpSocket, tap, mac, tee), config, plan)
  {
    GuestSeesConfig(config.(disks := plan.disks), qmpSocket, tap, mac, plan.cmdline, tee);
  }

  // ---- the guest's devices are the host's disks ----

  lemma DevicesOfLayout(guest: Guest, config: VmConfig, plan: Plan)
    requires Shows(guest, config, plan) && config.disks != [] && plan.disks == VerityLayout(config.disks)
    ensures Behind(guest.disks, Vda) == Some(config.disks[0])
            && Behind(guest.disks, Vdb) == Some(HashTree(config.disks[0]))
    ensures |config.disks| > 1 ==>
              Behind(guest.disks, Vdc) == Some(config.disks[1])
                && Behind(guest.disks, Vdd) == Some(HashTree(config.disks[1]))
    ensures Behind(guest.disks, Sda) == None
  {
  }

  /** Only virtio drives exist, so a root device that is found is vda. */
  lemma {:induction false} RootIsVda(w: World, disks: seq<Option<Disk>>, n: nat)
    requires Possible(w, disks)
    ensures RootDevice(w, n).Some? ==> RootDevice(w, n) == Some(Vda)
    decreases ATTEMPTS - n
  {
    if n < ATTEMPTS && !w.sees(Vda, n) {
      assert w.sees(Sda, n) ==> Behind(disks, Sda).Some?;
      RootIsVda(w, disks, n + 1);
    }
  }

  /** A world in which every attached drive appears and every command succeeds. */
  function Smooth(disks: seq<Option<Disk>>): World {
    World((dev, n) => Behind(disks, dev).Some?, (data, tree, hash) => true, dev => true,
          (source, readonly) => true, n => true, true)
  }

  lemma SmoothFindsVda(disks: seq<Option<Disk>>)
    requires Behind(disks, Vda).Some?
    ensures Possible(Smooth(disks), disks) && RootDevice(Smooth(disks), 0) == Some(Vda)
    ensures forall dev :: Behind(disks, dev).Some? ==> Appears(Smooth(disks), dev)
  {
    forall dev | Behind(disks, dev).Some? ensures Appears(Smooth(disks), dev) {
      assert Smooth(disks).sees(dev, 0);
    }
  }

  lemma SmoothBoot(disks: seq<Option<Disk>>, line: string)
    requires Behind(disks, Vda).Some? && Behind(disks, Vdb).Some? && Cmdline.Luks(line) != "1"
    requires Cmdline.WorkloadRoothash(line) != "" ==> Behind(disks, Vdc).Some? && Behind(disks, Vdd).Some?
    ensures Possible(Smooth(disks), disks)
    ensures var out := Boot(Smooth(disks), line);
            && out.Up? && out.started
            && (Cmdline.Roothash(line) == "" ==> out.root == Some(Mounted(Raw(Vda), true)))
  {
    SmoothFindsVda(disks);
  }

  // ---- measured boot ----

  predicate HashesUsable(config: VmConfig, verity: Verity) {
    Usable(RootHash(config, verity)) && (|config.disks| > 1 ==> Usable(WorkloadHash(config, verity)))
  }

  /** With usable hashes, no world gets past the checks. */
  lemma UsableIsMeasured(config: VmConfig, verity: Verity, guest: Guest, w: World)
    requires UsesVerity(config) && config.kernel.Some? && config.initrd.Some?
    requires Prepared(config, verity).Ok? && Shows(guest, config, Prepared(config, verity).value)
    requires HashesUsable(config, verity) && Possible(w, guest.disks)
    ensures Measured(Boot(w, guest.lines[0]), guest.disks, config, verity)
  {
    Cmdline.PrintParseExactlyWhen(RootHash(config, verity), WorkloadHash(config, verity));
    DevicesOfLayout(guest, config, Prepared(config, verity).value);
    RootIsVda(w, guest.disks, 0);
  }

  /** A guest that is up and measured was given usable hashes. */
  lemma MeasuredIsUsable(config: VmConfig, verity: Verity, guest: Guest, w: World, line: string)
    requires UsesVerity(config)
    requires Boot(w, line).Up? && Measured(Boot(w, line), guest.disks, config, verity)
    ensures HashesUsable(config, verity)
  {
    Cmdline.RoothashIsHex(line);
  }

  /** When nothing fails, a guest with usable hashes starts. */
  lemma UsableStarts(config: VmConfig, verity: Verity, guest: Guest)
    requires UsesVerity(config) && config.kernel.Some? && config.initrd.Some?
    requires Prepared(config, verity).Ok? && Shows(guest, config, Prepared(config, verity).value)
    requires HashesUsable(config, verity)
    ensures Possible(Smooth(guest.disks), guest.disks)
    ensures var out := Boot(Smooth(guest.disks), guest.lines[0]); out.Up? && out.started
  {
    Cmdline.PrintParseExactlyWhen(RootHash(config, verity), WorkloadHash(config, verity));
    DevicesOfLayout(guest, config, Prepared(config, verity).value);
    SmoothBoot(guest.disks, guest.lines[0]);
  }

  /** The guest of a confidential, unencrypted VM booted with kernel and initrd, whatever devices
      appear and whatever fails: with usable hashes it is off or runs only what its measured
      disks hold, and it can start; with any other hash it is off or unmeasured. */
  lemma MeasuredBootExactlyWhen(config: VmConfig, verity: Verity, qmpSocket: string, tap: string, mac: string,
                                tee: seq<Arg>)
    requires UsesVerity(config) && config.kernel.Some? && config.initrd.Some?
    requires Prepared(config, verity).Ok? && FirstPanic(Prepared(config, verity).value.disks).None?
    requires ValuesOf(tee, Drive) == [] && ValuesOf(tee, Append) == []
    ensures var guest := GuestOf(config, Prepared(config, verity).value, qmpSocket, tap, mac, tee);
            && |guest.lines| == 1
            && (forall w | Possible(w, guest.disks) && Boot(w, guest.lines[0]).Up? ::
                  Measured(Boot(w, guest.lines[0]), guest.disks, config, verity) <==> HashesUsable(config, verity))
            && (HashesUsable(config, verity) ==>
                  exists w | Possible(w, guest.disks) :: Boot(w, guest.lines[0]).Up? && Boot(w, guest.lines[0]).started)
  {
    var plan := Prepared(config, verity).value;
    var guest := GuestOf(config, plan, qmpSocket, tap, mac, tee);
    GuestIsShownPlan(config, plan, qmpSocket, tap, mac, tee);
    forall w | Possible(w, guest.disks) && Boot(w, guest.lines[0]).Up?
      ensures Measured(Boot(w, guest.lines[0]), guest.disks, config, verity) <==> HashesUsable(config, verity)
    {
      if HashesUsable(config, verity) {
        UsableIsMeasured(config, verity, guest, w);
      } else if Measured(Boot(w, guest.lines[0]), guest.disks, config, verity) {
        MeasuredIsUsable(config, verity, guest, w, guest.lines[0]);
      }
    }
    if HashesUsable(config, verity) { UsableStarts(config, verity, guest); }
  }

  // ---- when the guest comes up ----

  /** One of the thirty attempts sees the device. */
  ghost predicate Seen(w: World, dev: Dev) { exists n | 0 <= n < 30 :: w.sees(dev, n) }

  lemma {:induction false} RootIsSeen(w: World, disks: seq<Option<Disk>>, n: nat)
    requires Possible(w, disks)
    ensures RootDevice(w, n).Some? <==> exists k | n <= k < 30 :: w.sees(Vda, k)
    decreases ATTEMPTS - n
  {
    if n < ATTEMPTS && !w.sees(Vda, n) {
      assert w.sees(Sda, n) ==> Behind(disks, Sda).Some?;
      RootIsSeen(w, disks, n + 1);
    }
  }

  /** Both devices appear, open against the hash, and mount read-only. */
  ghost predicate Openable(w: World, data: Dev, tree: Dev, hash: string) {
    Seen(w, data) && Seen(w, tree) && w.opensVerity(data, tree, hash) && w.mounts(Verity(data, tree, hash), true)
  }

  lemma UpExactlyWhen(w: World, disks: seq<Option<Disk>>, line: string)
    requires Possible(w, disks) && Cmdline.Luks(line) != "1"
    ensures var out, root, workload := Boot(w, line), Cmdline.Roothash(line), Cmdline.WorkloadRoothash(line);
            && (out.Up? <==>
                && Seen(w, Vda) && (root != "" ==> Openable(w, Vda, Vdb, root))
                && (workload != "" ==> Openable(w, Vdc, Vdd, workload)))
            && (out.Up? ==> out.started == w.hasInit)
            && (out.Up? && root == "" ==>
                  out.root == if w.mounts(Raw(Vda), true) then Some(Mounted(Raw(Vda), true))
                              else if w.mounts(Raw(Vda), false) then Some(Mounted(Raw(Vda), false))
                              else None)
  {
    RootIsVda(w, disks, 0);
    RootIsSeen(w, disks, 0);
  }

  /** With usable hashes the guest comes up exactly when the first disk, and the workload disk if
      there is one, appear with their hash trees, open and mount read-only. */
  lemma MeasuredUpExactlyWhen(config: VmConfig, verity: Verity, qmpSocket: string, tap: string, mac: string,
                              tee: seq<Arg>, w: World)
    requires UsesVerity(config) && config.kernel.Some? && config.initrd.Some?
    requires Prepared(config, verity).Ok? && FirstPanic(Prepared(config, verity).value.disks).None?
    requires ValuesOf(tee, Drive) == [] && ValuesOf(tee, Append) == []
    requires HashesUsable(config, verity)
    requires Possible(w, GuestOf(config, Prepared(config, verity).value, qmpSocket, tap, mac, tee).disks)
    ensures var guest := GuestOf(config, Prepared(config, verity).value, qmpSocket, tap, mac, tee);
            && |guest.lines| == 1
            && var out := Boot(w, guest.lines[0]);
            && (out.Up? <==>
                && Openable(w, Vda, Vdb, RootHash(config, verity).value)
                && (|config.disks| > 1 ==> Openable(w, Vdc, Vdd, WorkloadHash(config, verity).value)))
            && (out.Up? ==> out.started == w.hasInit)
  {
    var plan := Prepared(config, verity).value;
    var guest := GuestOf(config, plan, qmpSocket, tap, mac, tee);
    GuestIsShownPlan(config, plan, qmpSocket, tap, mac, tee);
    Cmdline.PrintParseExactlyWhen(RootHash(config, verity), WorkloadHash(config, verity));
    UpExactlyWhen(w, guest.disks, guest.lines[0]);
  }

  /** With an empty root hash it comes up exactly when vda appears and the workload, if it has a
      hash, opens; its root is vda itself, read-only if that mounts, else read-write if that does. */
  lemma UnmeasuredUpExactlyWhen(config: VmConfig, verity: Verity, qmpSocket: string, tap: string, mac: string,
                                tee: seq<Arg>, w: World)
    requires UsesVerity(config) && config.kernel.Some? && config.initrd.Some?
    requires Prepared(config, verity).Ok? && FirstPanic(Prepared(config, verity).value.disks).None?
    requires ValuesOf(tee, Drive) == [] && ValuesOf(tee, Append) == []
    requires RootHash(config, verity) == Some("") && Cmdline.HexOrNone(WorkloadHash(config, verity))
    requires Possible(w, GuestOf(config, Prepared(config, verity).value, qmpSocket, tap, mac, tee).disks)
    ensures var guest := GuestOf(config, Prepared(config, verity).value, qmpSocket, tap, mac, tee);
            var workload := Cmdline.OrEmpty(WorkloadHash(config, verity));
            && |guest.lines| == 1
            && var out := Boot(w, guest.lines[0]);
            && (out.Up? <==> Seen(w, Vda) && (workload != "" ==> Openable(w, Vdc, Vdd, workload)))
            && (out.Up? ==>
                  out.root == if w.mounts(Raw(Vda), true) then Some(Mounted(Raw(Vda), true))
                              else if w.mounts(Raw(Vda), false) then Some(Mounted(Raw(Vda), false))
                              else None)
  {
    var plan := Prepared(config, verity).value;
    var guest := GuestOf(config, plan, qmpSocket, tap, mac, tee);
    GuestIsShownPlan(config, plan, qmpSocket, tap, mac, tee);
    Cmdline.PrintParseExactlyWhen(RootHash(config, verity), WorkloadHash(config, verity));
    UpExactlyWhen(w, guest.disks, guest.lines[0]);
  }

  /** An empty root hash, which an empty cache file yields, boots the raw disk unmeasured. */
  lemma EmptyHashBootsUnmeasured(config: VmConfig, verity: Verity, qmpSocket: string, tap: string, mac: string,
                                 tee: seq<Arg>)
    requires UsesVerity(config) && config.kernel.Some? && config.initrd.Some?
    requires Prepared(config, verity).Ok? && FirstPanic(Prepared(config, verity).value.disks).None?
    requires ValuesOf(tee, Drive) == [] && ValuesOf(tee, Append) == []
    requires RootHash(config, verity) == Some("") && Cmdline.HexOrNone(WorkloadHash(config, verity))
    ensures var guest := GuestOf(config, Prepared(config, verity).value, qmpSocket, tap, mac, tee);
            && |guest.lines| == 1
            && exists w | Possible(w, guest.disks) ::
                 Boot(w, guest.lines[0]).Up? && Boot(w, guest.lines[0]).started
                   && Boot(w, guest.lines[0]).root == Some(Mounted(Raw(Vda), true))
  {
    var plan := Prepared(config, verity).value;
    var guest := GuestOf(config, plan, qmpSocket, tap, mac, tee);
    GuestIsShownPlan(config, plan, qmpSocket, tap, mac, tee);
    Cmdline.PrintParseExactlyWhen(RootHash(config, verity), WorkloadHash(config, verity));
    DevicesOfLayout(guest, config, plan);
    SmoothBoot(guest.disks, guest.lines[0]);
  }

  /** An encrypted VM comes up exactly when its passphrase arrived and opened and mounted its
      first disk, and then runs only that. */
  lemma EncryptedBoot(config: VmConfig, verity: Verity, qmpSocket: string, tap: string, mac: string, tee: seq<Arg>,
                      w: World)
    requires config.confidential && config.encrypted && config.kernel.Some? && config.initrd.Some?
    requires FirstPanic(config.disks).None?
    requires ValuesOf(tee, Drive) == [] && ValuesOf(tee, Append) == []
    requires Prepared(config, verity).Ok?
    requires Possible(w, GuestOf(config, Prepared(config, verity).value, qmpSocket, tap, mac, tee).disks)
    ensures var guest := GuestOf(config, Prepared(config, verity).value, qmpSocket, tap, mac, tee);
            && |guest.lines| == 1
            && var out := Boot(w, guest.lines[0]);
            && (out.Up? ==> out.root == Some(Mounted(Crypt(Vda), false)) && out.workload == None
                            && config.disks != [] && Behind(guest.disks, Vda) == Some(config.disks[0]))
            && (out.Up?
                <==> Seen(w, Vda) && PassphraseGiven(w) && w.unlocks(Vda) && w.mounts(Crypt(Vda), false))
  {
    var plan := Prepared(config, verity).value;
    var guest := GuestOf(config, plan, qmpSocket, tap, mac, tee);
    assert plan.disks == config.disks;
    GuestIsShownPlan(config, plan, qmpSocket, tap, mac, tee);
    Cmdline.EncryptedLine(RootHash(config, verity), WorkloadHash(config, verity));
    RootIsVda(w, guest.disks, 0);
    SeenRootIsAttached(w, guest.disks, 0);
    RootIsSeen(w, guest.disks, 0);
  }

  lemma {:induction false} SeenRootIsAttached(w: World, disks: seq<Option<Disk>>, n: nat)
    requires Possible(w, disks)
    ensures RootDevice(w, n) == Some(Vda) ==> Behind(disks, Vda).Some?
    decreases ATTEMPTS - n
  {
    if n < ATTEMPTS && !w.sees(Vda, n) { SeenRootIsAttached(w, disks, n + 1); }
  }
}
