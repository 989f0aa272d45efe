/** The host's half of a boot: hash-tree disks are inserted beside the images they cover, the
    kernel command line is chosen, and the QEMU arguments fix the guest's device order. */
module HostBoot {
  import opened Wrappers
  import opened Words
  import opened VmConfigs
  import opened Text
  import Cmdline

  // ---- hash-tree disks ----

  /** The root hash veritysetup (or its cache) reports for the image at a path; None when it fails. */
  type Verity = string -> Option<string>

  datatype BootError = VerityFailed | WorkloadVerityFailed

  datatype Plan = Plan(disks: seq<Disk>, cmdline: Option<string>)

  function HashTree(image: Disk): Disk { Disk(image.path + ".verity", true, "raw") }

  /** The order of disks that boots with verity: each covered image, then its hash tree, then
      whatever is left. */
  function VerityLayout(disks: seq<Disk>): seq<Disk> {
    if |disks| == 0 then []
    else if |disks| == 1 then [disks[0], HashTree(disks[0])]
    else [disks[0], HashTree(disks[0]), disks[1], HashTree(disks[1])] + disks[2..]
  }

  /** A boot is measured when the rootfs, and the workload volume if there is one, are covered. */
  predicate UsesVerity(config: VmConfig) { config.confidential && !config.encrypted && config.disks != [] }

  function RootHash(config: VmConfig, verity: Verity): Option<string> {
    if UsesVerity(config) then verity(config.disks[0].path) else None
  }

  function WorkloadHash(config: VmConfig, verity: Verity): Option<string> {
    if UsesVerity(config) && |config.disks| > 1 then verity(config.disks[1].path) else None
  }

  function Prepared(config: VmConfig, verity: Verity): Result<Plan, BootError> {
    if UsesVerity(config) && RootHash(config, verity).None? then Err(VerityFailed)
    else if UsesVerity(config) && |config.disks| > 1 && WorkloadHash(config, verity).None?
      then Err(WorkloadVerityFailed)
    else Ok(Plan(
      if UsesVerity(config) then VerityLayout(config.disks) else config.disks,
      if !config.confidential then None
      else Some(Cmdline.BuildKernelCmdline(RootHash(config, verity), WorkloadHash(config, verity), config.encrypted))))
  }

  function Inserted<T>(s: seq<T>, at: nat, x: T): seq<T>
    requires at <= |s|
  {
    s[..at] + [x] + s[at..]
  }

  /** The boot section of create_vm: disks are inserted into the list in place. */
  method Prepare(config: VmConfig, verity: Verity) returns (r: Result<Plan, BootError>)
    ensures r == Prepared(config, verity)
  {
    var disks := config.disks;
    if !config.confidential { return Ok(Plan(disks, None)); }
    if config.encrypted { return Ok(Plan(disks, Some(Cmdline.BuildKernelCmdline(None, None, true)))); }
    if |disks| == 0 { return Ok(Plan(disks, Some(Cmdline.BuildKernelCmdline(None, None, false)))); }

    var hasWorkloadDisk := |disks| > 1;
    var rootHash := verity(disks[0].path);
    if rootHash.None? { return Err(VerityFailed); }
    disks := Inserted(disks, 1, HashTree(disks[0]));

    var workloadHash: Option<string> := None;
    if hasWorkloadDisk {
      var workloadDisk := disks[2];
      assert workloadDisk == config.disks[1];
      workloadHash := verity(workloadDisk.path);
      if workloadHash.None? { return Err(WorkloadVerityFailed); }
      disks := Inserted(disks, 3, HashTree(workloadDisk));
    }
    assert disks == VerityLayout(config.disks);
    return Ok(Plan(disks, Some(Cmdline.BuildKernelCmdline(rootHash, workloadHash, false))));
  }

  // ---- QEMU arguments ----

  /** QEMU's option names; Backend is any option only the TEE backend writes. */
  datatype Switch =
    EnableKvm | Smp | Memory | Nographic | NoReboot | Kernel | Initrd | Append | BootOrder
    | Serial | Qmp | Netdev | Device | Drive | Backend(name: string)

  datatype Arg = Flag(switch: Switch) | Opt(switch: Switch, value: string)

  datatype Panic = UnsupportedFormat(format: string) | CommaInPath(path: string)

  function DiskPanic(disk: Disk): Option<Panic> {
    if disk.format != "raw" && disk.format != "qcow2" then Some(UnsupportedFormat(disk.format))
    else if ',' in disk.path then Some(CommaInPath(disk.path))
    else None
  }

  function Joined(parts: seq<string>): string {
    if parts == [] then "" else if |parts| == 1 then parts[0] else parts[0] + ("," + Joined(parts[1..]))
  }

  function DriveFields(disk: Disk): seq<string> {
    ["file=" + disk.path, "format=" + disk.format, "if=virtio", ReadonlyField(disk.readonly)]
  }

  function DriveValue(disk: Disk): string { Joined(DriveFields(disk)) }

  function ReadonlyField(readonly: bool): string { "readonly=" + if readonly then "on" else "off" }

  function KernelArgs(config: VmConfig, cmdline: Option<string>): seq<Arg> {
    if config.kernel.Some? && config.initrd.Some? then
      [Opt(Kernel, config.kernel.value), Opt(Initrd, config.initrd.value)]
      + (if cmdline.Some? then [Opt(Append, cmdline.value)] else [])
    else [Opt(BootOrder, "order=c")]
  }

  function BaseArgs(config: VmConfig): seq<Arg> {
    [Flag(EnableKvm), Opt(Smp, Decimal(config.vcpus)), Opt(Memory, Decimal(config.memoryMb) + "M"),
     Flag(Nographic), Flag(NoReboot)]
  }

  function NetdevFields(tap: string): seq<string> { ["tap", "id=net0", "ifname=" + tap, "script=no", "downscript=no"] }

  function DeviceFields(mac: string): seq<string> { ["virtio-net-pci", "netdev=net0", "mac=" + mac] }

  function DeviceArgs(qmpSocket: string, tap: string, mac: string): seq<Arg> {
    [Opt(Serial, "stdio"),
     Opt(Qmp, "unix:" + qmpSocket + ",server,nowait"),
     Opt(Netdev, Joined(NetdevFields(tap))),
     Opt(Device, Joined(DeviceFields(mac)))]
  }

  /** The sections before the drives. */
  function FrontArgs(config: VmConfig, qmpSocket: string, tap: string, mac: string, cmdline: Option<string>): seq<Arg> {
    BaseArgs(config) + KernelArgs(config, cmdline) + DeviceArgs(qmpSocket, tap, mac)
  }

  /** The first disk QEMU arguments cannot be written for. */
  function FirstPanic(disks: seq<Disk>): (r: Option<Panic>)
    ensures r.None? <==> forall i :: 0 <= i < |disks| ==> DiskPanic(disks[i]).None?
  {
    if disks == [] then None
    else if DiskPanic(disks[0]).Some? then DiskPanic(disks[0])
    else FirstPanic(disks[1..])
  }

  function DriveArgs(disks: seq<Disk>): seq<Arg> {
    seq(|disks|, i requires 0 <= i < |disks| => Opt(Drive, DriveValue(disks[i])))
  }

  function Args(config: VmConfig, qmpSocket: string, tap: string, mac: string, cmdline: Option<string>,
                tee: seq<Arg>): seq<Arg> {
    FrontArgs(config, qmpSocket, tap, mac, cmdline) + DriveArgs(config.disks) + tee
  }

  /** The argument builder of the QEMU command line; tee holds the backend's own arguments. */
  method BuildQemuCommand(config: VmConfig, qmpSocket: string, tap: string, tee: seq<Arg>, mac: string,
                          cmdline: Option<string>)
    returns (r: Result<seq<Arg>, Panic>)
    ensures r == match FirstPanic(config.disks)
                 case Some(panic) => Err(panic)
                 case None => Ok(Args(config, qmpSocket, tap, mac, cmdline, tee))
  {
    var args := BaseArgs(config);
    if config.kernel.Some? && config.initrd.Some? {
      args := args + [Opt(Kernel, config.kernel.value), Opt(Initrd, config.initrd.value)];
      if cmdline.Some? { args := args + [Opt(Append, cmdline.value)]; }
    } else {
      args := args + [Opt(BootOrder, "order=c")];
    }
    args := args + DeviceArgs(qmpSocket, tap, mac);
    assert args == FrontArgs(config, qmpSocket, tap, mac, cmdline);
    r := AddDrives(args, config.disks);
    if r.Ok? { r := Ok(r.value + tee); }
  }

  /** The drive loop: every disk in order, or the panic of the first bad one. */
  method AddDrives(front: seq<Arg>, disks: seq<Disk>) returns (r: Result<seq<Arg>, Panic>)
    ensures r == match FirstPanic(disks)
                 case Some(panic) => Err(panic)
                 case None => Ok(front + DriveArgs(disks))
  {
    var args := front;
    var i := 0;
    while i < |disks|
      invariant 0 <= i <= |disks|
      invariant FirstPanic(disks) == FirstPanic(disks[i..])
      invariant args == front + DriveArgs(disks[..i])
    {
      var disk := disks[i];
      var panic := DiskPanic(disk);
      if panic.Some? { return Err(panic.value); }
      args := args + [Opt(Drive, DriveValue(disk))];
      assert disks[i..][1..] == disks[i + 1..];
      assert DriveArgs(disks[..i + 1]) == DriveArgs(disks[..i]) + [Opt(Drive, DriveValue(disk))];
      i := i + 1;
    }
    assert disks[..i] == disks;
    return Ok(args);
  }

  // ---- what QEMU reads back ----

  function ValuesOf(args: seq<Arg>, switch: Switch): seq<string> {
    if args == [] then [] else ValueOf(args[0], switch) + ValuesOf(args[1..], switch)
  }

  function ValueOf(arg: Arg, switch: Switch): seq<string> {
    if arg.Opt? && arg.switch == switch then [arg.value] else []
  }

  /** The value of a key in a comma-separated option list. */
  function Field(parts: seq<string>, key: string): Option<string> {
    if parts == [] then None
    else if |key| <= |parts[0]| && parts[0][..|key|] == key then Some(parts[0][|key|..])
    else Field(parts[1..], key)
  }

  function ReadDrive(value: string): Option<Disk> {
    var parts := Split(value, ',');
    match (Field(parts, "file="), Field(parts, "format="), Field(parts, "readonly="))
    case (Some(path), Some(format), Some(ro)) => Some(Disk(path, ro == "on", format))
    case _ => None
  }

  /** The disks behind /dev/vda, /dev/vdb, ...: virtio drives in argument order. */
  function GuestDisks(args: seq<Arg>): seq<Option<Disk>> {
    var values := ValuesOf(args, Drive);
    seq(|values|, i requires 0 <= i < |values| => ReadDrive(values[i]))
  }

  function GuestCmdline(args: seq<Arg>): seq<string> { ValuesOf(args, Append) }

  // ---- reading back what was written ----

  lemma FirstComma(a: string, rest: string)
    requires ',' !in a
    ensures IndexOf(a + ("," + rest), ',') == |a|
  {
    var s := a + ("," + rest);
    assert s[|a|] == ',';
    assert forall j :: 0 <= j < |a| ==> s[j] == a[j];
  }

  lemma SplitAtComma(a: string, rest: string)
    requires ',' !in a
    ensures Split(a + ("," + rest), ',') == [a] + Split(rest, ',')
  {
    var s := a + ("," + rest);
    FirstComma(a, rest);
    assert s[..|a|] == a && s[|a| + 1..] == rest;
  }

  lemma {:induction false} SplitJoined(parts: seq<string>)
    requires parts != [] && forall i :: 0 <= i < |parts| ==> ',' !in parts[i]
    ensures Split(Joined(parts), ',') == parts
  {
    if |parts| > 1 {
      SplitJoined(parts[1..]);
      SplitAtComma(parts[0], Joined(parts[1..]));
    }
  }

  lemma DriveParts(disk: Disk)
    requires DiskPanic(disk).None?
    ensures Split(DriveValue(disk), ',') == DriveFields(disk)
  {
    assert ',' !in "format=" && ',' !in "file=" && ',' !in disk.format;
    SplitJoined(DriveFields(disk));
  }

  lemma DriveRoundTrip(disk: Disk)
    requires DiskPanic(disk).None?
    ensures ReadDrive(DriveValue(disk)) == Some(disk)
  {
    DriveParts(disk);
    var file, format, ro := "file=" + disk.path, "format=" + disk.format, ReadonlyField(disk.readonly);
    var parts := [file, format, "if=virtio", ro];
    FieldHere("file=", disk.path, parts);
    FieldHere("format=", disk.format, parts[1..]);
    FieldHere("readonly=", if disk.readonly then "on" else "off", parts[3..]);
    assert DriveFields(disk) == parts && file[0] == 'f' && file[1] == 'i' && format[0] == 'f';
    FieldSkips("format=", parts, 1);
    FieldSkips("readonly=", parts, 0);
    FieldSkips("readonly=", parts[1..], 0);
    FieldSkips("readonly=", parts[2..], 0);
    assert parts[1..][1..] == parts[2..] && parts[2..][1..] == parts[3..];
  }

  lemma FieldHere(key: string, value: string, parts: seq<string>)
    requires parts != [] && parts[0] == key + value
    ensures Field(parts, key) == Some(value)
  {
  }

  /** A key that differs from the first part at position i is looked up in the rest. */
  lemma FieldSkips(key: string, parts: seq<string>, i: nat)
    requires parts != [] && i < |key| && i < |parts[0]| && parts[0][i] != key[i]
    ensures Field(parts, key) == Field(parts[1..], key)
  {
    if |key| <= |parts[0]| { assert parts[0][..|key|][i] == parts[0][i]; }
  }

  lemma {:induction false} ValuesOfConcat(a: seq<Arg>, b: seq<Arg>, switch: Switch)
    ensures ValuesOf(a + b, switch) == ValuesOf(a, switch) + ValuesOf(b, switch)
  {
    if a == [] {
      assert a + b == b;
    } else {
      ValuesOfConcat(a[1..], b, switch);
      assert (a + b)[0] == a[0] && (a + b)[1..] == a[1..] + b;
      Grouping(ValueOf(a[0], switch), ValuesOf(a[1..], switch), ValuesOf(b, switch));
    }
  }

  lemma Grouping(a: seq<string>, b: seq<string>, c: seq<string>)
    ensures a + (b + c) == a + b + c
  {
  }

  lemma {:induction false} ValuesOfDrives(disks: seq<Disk>)
    ensures |ValuesOf(DriveArgs(disks), Drive)| == |disks| && ValuesOf(DriveArgs(disks), Append) == []
    ensures forall i :: 0 <= i < |disks| ==> ValuesOf(DriveArgs(disks), Drive)[i] == DriveValue(disks[i])
  {
    if disks != [] {
      assert DriveArgs(disks)[1..] == DriveArgs(disks[1..]);
      ValuesOfDrives(disks[1..]);
    }
  }

  lemma {:induction false} NoValues(args: seq<Arg>, switch: Switch)
    requires forall i :: 0 <= i < |args| ==> args[i].switch != switch
    ensures ValuesOf(args, switch) == []
  {
    if args != [] { NoValues(args[1..], switch); }
  }

  lemma OneValue(switch: Switch, value: string)
    ensures ValuesOf([Opt(switch, value)], switch) == [value]
  {
    assert [Opt(switch, value)][1..] == [];
  }

  lemma ValuesOfKernel(config: VmConfig, cmdline: Option<string>)
    ensures ValuesOf(KernelArgs(config, cmdline), Drive) == []
    ensures ValuesOf(KernelArgs(config, cmdline), Append) == Appended(config, cmdline)
  {
    var kernel := KernelArgs(config, cmdline);
    NoValues(kernel, Drive);
    if Appended(config, cmdline) != [] {
      var direct := [Opt(Kernel, config.kernel.value), Opt(Initrd, config.initrd.value)];
      NoValues(direct, Append);
      ValuesOfConcat(direct, [Opt(Append, cmdline.value)], Append);
      OneValue(Append, cmdline.value);
    } else {
      NoValues(kernel, Append);
    }
  }

  /** The command line is passed on only beside a kernel and an initrd. */
  function Appended(config: VmConfig, cmdline: Option<string>): seq<string> {
    if config.kernel.Some? && config.initrd.Some? && cmdline.Some? then [cmdline.value] else []
  }

  lemma ValuesInMiddle(before: seq<Arg>, middle: seq<Arg>, after: seq<Arg>, switch: Switch)
    requires forall i :: 0 <= i < |before| ==> before[i].switch != switch
    requires forall i :: 0 <= i < |after| ==> after[i].switch != switch
    ensures ValuesOf(before + middle + after, switch) == ValuesOf(middle, switch)
  {
    ValuesOfConcat(before + middle, after, switch);
    ValuesOfConcat(before, middle, switch);
    NoValues(before, switch);
    NoValues(after, switch);
  }

  lemma ValuesOfFront(config: VmConfig, qmpSocket: string, tap: string, mac: string, cmdline: Option<string>,
                      switch: Switch)
    requires switch == Drive || switch == Append
    ensures ValuesOf(FrontArgs(config, qmpSocket, tap, mac, cmdline), switch)
            == ValuesOf(KernelArgs(config, cmdline), switch)
  {
    ValuesInMiddle(BaseArgs(config), KernelArgs(config, cmdline), DeviceArgs(qmpSocket, tap, mac), switch);
  }

  lemma ValuesOfArgs(config: VmConfig, qmpSocket: string, tap: string, mac: string, cmdline: Option<string>,
                     tee: seq<Arg>, switch: Switch)
    requires (switch == Drive || switch == Append) && ValuesOf(tee, switch) == []
    ensures ValuesOf(Args(config, qmpSocket, tap, mac, cmdline, tee), switch)
         == ValuesOf(KernelArgs(config, cmdline), switch) + ValuesOf(DriveArgs(config.disks), switch)
  {
    var front, drives := FrontArgs(config, qmpSocket, tap, mac, cmdline), DriveArgs(config.disks);
    ValuesOfFront(config, qmpSocket, tap, mac, cmdline, switch);
    ValuesOfConcat(front + drives, tee, switch);
    ValuesOfConcat(front, drives, switch);
  }

  lemma {:induction false} GuestSeesDisks(args: seq<Arg>, disks: seq<Disk>)
    requires FirstPanic(disks).None? && ValuesOf(args, Drive) == ValuesOf(DriveArgs(disks), Drive)
    ensures |GuestDisks(args)| == |disks|
    ensures forall i :: 0 <= i < |disks| ==> GuestDisks(args)[i] == Some(disks[i])
  {
    ValuesOfDrives(disks);
    forall i | 0 <= i < |disks| ensures ReadDrive(DriveValue(disks[i])) == Some(disks[i]) {
      DriveRoundTrip(disks[i]);
    }
  }

  /** The guest finds the configured disks, in order, and the command line exactly when a kernel
      and an initrd are given. */
  lemma GuestSeesConfig(config: VmConfig, qmpSocket: string, tap: string, mac: string, cmdline: Option<string>,
                        tee: seq<Arg>)
    requires FirstPanic(config.disks).None?
    requires ValuesOf(tee, Drive) == [] && ValuesOf(tee, Append) == []
    ensures var args := Args(config, qmpSocket, tap, mac, cmdline, tee);
            && |GuestDisks(args)| == |config.disks|
            && (forall i :: 0 <= i < |config.disks| ==> GuestDisks(args)[i] == Some(config.disks[i]))
            && GuestCmdline(args) == Appended(config, cmdline)
  {
    ValuesOfArgs(config, qmpSocket, tap, mac, cmdline, tee, Drive);
    ValuesOfArgs(config, qmpSocket, tap, mac, cmdline, tee, Append);
    ValuesOfKernel(config, cmdline);
    ValuesOfDrives(config.disks);
    GuestSeesDisks(Args(config, qmpSocket, tap, mac, cmdline, tee), config.disks);
  }

  // ---- the rest of the machine ----

  /** The machine as QEMU reads it from the arguments. */
  datatype Machine = Machine(vcpus: Option<U32>, memoryMb: Option<U32>, kernel: Option<string>, initrd: Option<string>,
                             tap: Option<string>, mac: Option<string>)

  function Single(values: seq<string>): Option<string> { if |values| == 1 then Some(values[0]) else None }

  /** A memory size in megabytes. */
  function ReadMegabytes(value: string): Option<U32> {
    if value != "" && value[|value| - 1] == 'M' then ParseU32(value[..|value| - 1]) else None
  }

  function Then<S, T>(o: Option<S>, f: S -> Option<T>): Option<T> { if o.Some? then f(o.value) else None }

  function ReadMachine(args: seq<Arg>): Machine {
    Machine(Then(Single(ValuesOf(args, Smp)), ParseU32), Then(Single(ValuesOf(args, Memory)), ReadMegabytes),
            Single(ValuesOf(args, Kernel)), Single(ValuesOf(args, Initrd)),
            Then(Single(ValuesOf(args, Netdev)), v => Field(Split(v, ','), "ifname=")),
            Then(Single(ValuesOf(args, Device)), v => Field(Split(v, ','), "mac=")))
  }

  lemma Around(args: seq<Arg>, i: nat)
    requires i < |args|
    ensures args == args[..i] + [args[i]] + args[i + 1..]
  {
  }

  lemma OnlyOne(args: seq<Arg>, i: nat)
    requires i < |args| && args[i].Opt? && forall j :: 0 <= j < |args| && j != i ==> args[j].switch != args[i].switch
    ensures ValuesOf(args, args[i].switch) == [args[i].value]
  {
    Around(args, i);
    ValuesInMiddle(args[..i], [args[i]], args[i + 1..], args[i].switch);
    OneValue(args[i].switch, args[i].value);
  }

  lemma ValuesOfParts(config: VmConfig, qmpSocket: string, tap: string, mac: string, cmdline: Option<string>,
                      tee: seq<Arg>, switch: Switch)
    requires switch != Drive && ValuesOf(tee, switch) == []
    ensures ValuesOf(Args(config, qmpSocket, tap, mac, cmdline, tee), switch)
         == ValuesOf(FrontArgs(config, qmpSocket, tap, mac, cmdline), switch)
  {
    var front, drives := FrontArgs(config, qmpSocket, tap, mac, cmdline), DriveArgs(config.disks);
    NoValues(drives, switch);
    ValuesOfConcat(front + drives, tee, switch);
    ValuesOfConcat(front, drives, switch);
  }

  lemma KernelValues(config: VmConfig, cmdline: Option<string>)
    ensures var kernel := KernelArgs(config, cmdline);
            if config.kernel.Some? && config.initrd.Some? then
              ValuesOf(kernel, Kernel) == [config.kernel.value] && ValuesOf(kernel, Initrd) == [config.initrd.value]
            else ValuesOf(kernel, Kernel) == [] && ValuesOf(kernel, Initrd) == []
  {
    var kernel := KernelArgs(config, cmdline);
    if config.kernel.Some? && config.initrd.Some? {
      OnlyOne(kernel, 0);
      OnlyOne(kernel, 1);
    } else {
      NoValues(kernel, Kernel);
      NoValues(kernel, Initrd);
    }
  }

  lemma ValuesOfThree(a: seq<Arg>, b: seq<Arg>, c: seq<Arg>, switch: Switch)
    ensures ValuesOf(a + b + c, switch) == ValuesOf(a, switch) + ValuesOf(b, switch) + ValuesOf(c, switch)
  {
    ValuesOfConcat(a + b, c, switch);
    ValuesOfConcat(a, b, switch);
  }

  lemma FrontValues(config: VmConfig, qmpSocket: string, tap: string, mac: string, cmdline: Option<string>,
                    switch: Switch)
    ensures ValuesOf(FrontArgs(config, qmpSocket, tap, mac, cmdline), switch)
         == ValuesOf(BaseArgs(config), switch) + ValuesOf(KernelArgs(config, cmdline), switch)
            + ValuesOf(DeviceArgs(qmpSocket, tap, mac), switch)
  {
    ValuesOfThree(BaseArgs(config), KernelArgs(config, cmdline), DeviceArgs(qmpSocket, tap, mac), switch);
  }

  lemma MegabytesRead(n: U32)
    ensures ReadMegabytes(Decimal(n) + "M") == Some(n)
  {
    var v := Decimal(n) + "M";
    assert v[..|v| - 1] == Decimal(n);
    ParseDecimal(n);
  }

  lemma NetdevRead(tap: string)
    requires ',' !in tap
    ensures Field(Split(Joined(NetdevFields(tap)), ','), "ifname=") == Some(tap)
  {
    var parts := NetdevFields(tap);
    assert ',' !in "ifname=";
    SplitJoined(parts);
    FieldSkips("ifname=", parts, 0);
    FieldSkips("ifname=", parts[1..], 1);
    assert parts[1..][1..] == parts[2..];
    FieldHere("ifname=", tap, parts[2..]);
  }

  lemma DeviceRead(mac: string)
    requires ',' !in mac
    ensures Field(Split(Joined(DeviceFields(mac)), ','), "mac=") == Some(mac)
  {
    var parts := DeviceFields(mac);
    assert ',' !in "mac=";
    SplitJoined(parts);
    FieldSkips("mac=", parts, 0);
    FieldSkips("mac=", parts[1..], 0);
    assert parts[1..][1..] == parts[2..];
    FieldHere("mac=", mac, parts[2..]);
  }

  lemma BaseValues(config: VmConfig, switch: Switch)
    requires switch in {Smp, Memory, Netdev, Device}
    ensures ValuesOf(BaseArgs(config), switch)
         == if switch == Smp then [Decimal(config.vcpus)]
            else if switch == Memory then [Decimal(config.memoryMb) + "M"] else []
  {
    var base := BaseArgs(config);
    if switch == Smp { OnlyOne(base, 1); }
    else if switch == Memory { OnlyOne(base, 2); }
    else { NoValues(base, switch); }
  }

  lemma DeviceValues(qmpSocket: string, tap: string, mac: string, switch: Switch)
    requires switch in {Smp, Memory, Netdev, Device}
    ensures ValuesOf(DeviceArgs(qmpSocket, tap, mac), switch)
         == if switch == Netdev then [Joined(NetdevFields(tap))]
            else if switch == Device then [Joined(DeviceFields(mac))] else []
  {
    var device := DeviceArgs(qmpSocket, tap, mac);
    if switch == Netdev { OnlyOne(device, 2); }
    else if switch == Device { OnlyOne(device, 3); }
    else { NoValues(device, switch); }
  }

  lemma KernelHasNone(config: VmConfig, cmdline: Option<string>, switch: Switch)
    requires switch !in {Kernel, Initrd, Append, BootOrder}
    ensures ValuesOf(KernelArgs(config, cmdline), switch) == []
  {
    NoValues(KernelArgs(config, cmdline), switch);
  }

  lemma OthersHaveNone(config: VmConfig, qmpSocket: string, tap: string, mac: string, switch: Switch)
    requires switch == Kernel || switch == Initrd
    ensures ValuesOf(BaseArgs(config), switch) == [] && ValuesOf(DeviceArgs(qmpSocket, tap, mac), switch) == []
  {
    NoValues(BaseArgs(config), switch);
    NoValues(DeviceArgs(qmpSocket, tap, mac), switch);
  }

  const MACHINE_SWITCHES := {Smp, Memory, Kernel, Initrd, Netdev, Device}

  lemma MachineValues(config: VmConfig, qmpSocket: string, tap: string, mac: string, cmdline: Option<string>,
                      tee: seq<Arg>, switch: Switch)
    requires switch in {Smp, Memory, Netdev, Device} && ValuesOf(tee, switch) == []
    ensures ValuesOf(Args(config, qmpSocket, tap, mac, cmdline, tee), switch)
         == match switch
            case Smp => [Decimal(config.vcpus)]
            case Memory => [Decimal(config.memoryMb) + "M"]
            case Netdev => [Joined(NetdevFields(tap))]
            case _ => [Joined(DeviceFields(mac))]
  {
    FrontWithoutKernel(config, qmpSocket, tap, mac, cmdline, tee, switch);
    BaseValues(config, switch);
    DeviceValues(qmpSocket, tap, mac, switch);
  }

  lemma FrontWithoutKernel(config: VmConfig, qmpSocket: string, tap: string, mac: string, cmdline: Option<string>,
                           tee: seq<Arg>, switch: Switch)
    requires switch !in {Kernel, Initrd, Append, BootOrder, Drive} && ValuesOf(tee, switch) == []
    ensures ValuesOf(Args(config, qmpSocket, tap, mac, cmdline, tee), switch)
         == ValuesOf(BaseArgs(config), switch) + ValuesOf(DeviceArgs(qmpSocket, tap, mac), switch)
  {
    ValuesOfParts(config, qmpSocket, tap, mac, cmdline, tee, switch);
    FrontValues(config, qmpSocket, tap, mac, cmdline, switch);
    KernelHasNone(config, cmdline, switch);
  }

  lemma KernelIsRead(config: VmConfig, qmpSocket: string, tap: string, mac: string, cmdline: Option<string>,
                     tee: seq<Arg>, switch: Switch)
    requires (switch == Kernel || switch == Initrd) && ValuesOf(tee, switch) == []
    ensures ValuesOf(Args(config, qmpSocket, tap, mac, cmdline, tee), switch)
         == ValuesOf(KernelArgs(config, cmdline), switch)
  {
    ValuesOfParts(config, qmpSocket, tap, mac, cmdline, tee, switch);
    FrontValues(config, qmpSocket, tap, mac, cmdline, switch);
    OthersHaveNone(config, qmpSocket, tap, mac, switch);
  }

  /** QEMU reads back the vCPUs, memory, TAP device and MAC the VM was given, and its kernel and
      initrd exactly when it has both. */
  lemma QemuReadsMachine(config: VmConfig, qmpSocket: string, tap: string, mac: string, cmdline: Option<string>,
                         tee: seq<Arg>)
    requires ',' !in tap && ',' !in mac && forall switch :: switch in MACHINE_SWITCHES ==> ValuesOf(tee, switch) == []
    ensures var direct := config.kernel.Some? && config.initrd.Some?;
            ReadMachine(Args(config, qmpSocket, tap, mac, cmdline, tee))
            == Machine(Some(config.vcpus), Some(config.memoryMb), if direct then config.kernel else None,
                       if direct then config.initrd else None, Some(tap), Some(mac))
  {
    MachineValues(config, qmpSocket, tap, mac, cmdline, tee, Smp);
    MachineValues(config, qmpSocket, tap, mac, cmdline, tee, Memory);
    MachineValues(config, qmpSocket, tap, mac, cmdline, tee, Netdev);
    MachineValues(config, qmpSocket, tap, mac, cmdline, tee, Device);
    KernelIsRead(config, qmpSocket, tap, mac, cmdline, tee, Kernel);
    KernelIsRead(config, qmpSocket, tap, mac, cmdline, tee, Initrd);
    KernelValues(config, cmdline);
    ParseDecimal(config.vcpus);
    MegabytesRead(config.memoryMb);
    NetdevRead(tap);
    DeviceRead(mac);
  }
}
