/** The guest's half of a boot: what init does with the kernel command line and the devices it
    finds, for every outcome of the commands it runs. */
module GuestInit {
  import opened Wrappers
  import Cmdline

  datatype Dev = Vda | Vdb | Vdc | Vdd | Sda

  /** What a mount is backed by. */
  datatype Source =
    | Raw(dev: Dev)
    | Verity(data: Dev, tree: Dev, hash: string)
    | Crypt(dev: Dev)

  /** The outcome of every command and test of one boot. sees is the block-device test at each
      attempt of a polling loop; passphrase is the presence of the passphrase file at each test
      of it; mounts takes whether the mount is read-only. */
  datatype World = World(
    sees: (Dev, nat) -> bool,
    opensVerity: (Dev, Dev, string) -> bool,
    unlocks: Dev -> bool,
    mounts: (Source, bool) -> bool,
    passphrase: nat -> bool,
    hasInit: bool)

  datatype Mounted = Mounted(source: Source, readonly: bool)

  datatype Outcome =
    | PoweredOff
    | Up(root: Option<Mounted>, workload: Option<Mounted>, started: bool)

  const ATTEMPTS := 30
  const PASSPHRASE_ATTEMPTS := 3000

  // ---- what a boot comes to ----

  ghost predicate Appears(w: World, dev: Dev) { exists n | 0 <= n < ATTEMPTS :: w.sees(dev, n) }

  /** The first attempt to see a root device decides; within one attempt vda wins. */
  function RootDevice(w: World, n: nat): (r: Option<Dev>)
    ensures r.Some? ==> r.value == Vda || r.value == Sda
    decreases ATTEMPTS - n
  {
    if n >= ATTEMPTS then None
    else if w.sees(Vda, n) then Some(Vda)
    else if w.sees(Sda, n) then Some(Sda)
    else RootDevice(w, n + 1)
  }

  /** How many tests of the passphrase file precede the one that decides: polling stops after
      the first success or the timeout, and then the file is tested once more. */
  function TestsBefore(w: World, n: nat): (k: nat)
    ensures k >= n
    decreases PASSPHRASE_ATTEMPTS - n
  {
    if n >= PASSPHRASE_ATTEMPTS then n
    else if w.passphrase(n) then n + 1
    else TestsBefore(w, n + 1)
  }

  function PassphraseGiven(w: World): bool { w.passphrase(TestsBefore(w, 0)) }

  /** A file that stays once injected is accepted exactly when it arrives by the last test. */
  lemma {:induction false} PassphraseByTimeout(w: World, n: nat)
    requires n <= PASSPHRASE_ATTEMPTS
    requires forall j: nat, k: nat :: j < k && w.passphrase(j) ==> w.passphrase(k)
    ensures w.passphrase(TestsBefore(w, n)) <==> w.passphrase(PASSPHRASE_ATTEMPTS)
    decreases PASSPHRASE_ATTEMPTS - n
  {
    if n < PASSPHRASE_ATTEMPTS && !w.passphrase(n) {
      PassphraseByTimeout(w, n + 1);
    }
  }

  /** A verity device comes up when both its devices appear, it opens and it mounts read-only. */
  ghost predicate VerityMounts(w: World, data: Dev, tree: Dev, hash: string) {
    Appears(w, tree) && w.opensVerity(data, tree, hash) && w.mounts(Verity(data, tree, hash), true)
  }

  ghost predicate WorkloadMounts(w: World, hash: string) {
    Appears(w, Vdc) && VerityMounts(w, Vdc, Vdd, hash)
  }

  function PlainRoot(w: World, dev: Dev): Option<Mounted> {
    if w.mounts(Raw(dev), true) then Some(Mounted(Raw(dev), true))
    else if w.mounts(Raw(dev), false) then Some(Mounted(Raw(dev), false))
    else None
  }

  ghost function BootEncrypted(w: World, dev: Dev): Outcome {
    if PassphraseGiven(w) && w.unlocks(dev) && w.mounts(Crypt(dev), false) then
      Up(Some(Mounted(Crypt(dev), false)), None, w.hasInit)
    else PoweredOff
  }

  ghost function BootVerity(w: World, dev: Dev, roothash: string, workload: string): Outcome {
    if roothash != "" && !VerityMounts(w, dev, Vdb, roothash) then PoweredOff
    else if workload != "" && !WorkloadMounts(w, workload) then PoweredOff
    else Up(if roothash != "" then Some(Mounted(Verity(dev, Vdb, roothash), true)) else PlainRoot(w, dev),
            if workload != "" then Some(Mounted(Verity(Vdc, Vdd, workload), true)) else None,
            w.hasInit)
  }

  ghost function Boot(w: World, line: string): Outcome {
    match RootDevice(w, 0)
    case None => PoweredOff
    case Some(dev) =>
      if Cmdline.Luks(line) == "1" then BootEncrypted(w, dev)
      else BootVerity(w, dev, Cmdline.Roothash(line), Cmdline.WorkloadRoothash(line))
  }

  // ---- the script ----

  method WaitForRoot(w: World) returns (blkdev: Option<Dev>)
    ensures blkdev == RootDevice(w, 0)
  {
    blkdev := None;
    var n := 0;
    while n < ATTEMPTS
      invariant 0 <= n <= ATTEMPTS && blkdev == None
      invariant RootDevice(w, 0) == RootDevice(w, n)
    {
      if w.sees(Vda, n) { return Some(Vda); }
      if w.sees(Sda, n) { return Some(Sda); }
      n := n + 1;
    }
  }

  method WaitFor(w: World, dev: Dev) returns (found: bool)
    ensures found == Appears(w, dev)
  {
    var n := 0;
    while n < ATTEMPTS
      invariant 0 <= n <= ATTEMPTS
      invariant forall k :: 0 <= k < n ==> !w.sees(dev, k)
    {
      if w.sees(dev, n) { return true; }
      n := n + 1;
    }
    return false;
  }

  method WaitForPassphrase(w: World) returns (given: bool)
    ensures given == PassphraseGiven(w)
  {
    var n := 0;
    while n < PASSPHRASE_ATTEMPTS
      invariant 0 <= n <= PASSPHRASE_ATTEMPTS
      invariant TestsBefore(w, 0) == TestsBefore(w, n)
    {
      if w.passphrase(n) { return w.passphrase(n + 1); }
      n := n + 1;
    }
    return w.passphrase(n);
  }

  method RunInit(w: World, line: string) returns (out: Outcome)
    ensures out == Boot(w, line)
  {
    var roothash := Cmdline.Roothash(line);
    var workloadRoothash := Cmdline.WorkloadRoothash(line);
    var luks := Cmdline.Luks(line);

    var blkdev := WaitForRoot(w);
    if blkdev.None? { return PoweredOff; }
    var dev := blkdev.value;

    if luks == "1" {
      var given := WaitForPassphrase(w);
      if !given { return PoweredOff; }
      if !w.unlocks(dev) { return PoweredOff; }
      if !w.mounts(Crypt(dev), false) { return PoweredOff; }
      return Up(Some(Mounted(Crypt(dev), false)), None, w.hasInit);
    }

    var root: Option<Mounted> := None;
    if roothash != "" {
      var hashdev := WaitFor(w, Vdb);
      if !hashdev { return PoweredOff; }
      if !w.opensVerity(dev, Vdb, roothash) { return PoweredOff; }
      if !w.mounts(Verity(dev, Vdb, roothash), true) { return PoweredOff; }
      root := Some(Mounted(Verity(dev, Vdb, roothash), true));
    } else if w.mounts(Raw(dev), true) {
      root := Some(Mounted(Raw(dev), true));
    } else if w.mounts(Raw(dev), false) {
      root := Some(Mounted(Raw(dev), false));
    }

    var workload: Option<Mounted> := None;
    if workloadRoothash != "" {
      var data := WaitFor(w, Vdc);
      if !data { return PoweredOff; }
      var tree := WaitFor(w, Vdd);
      if !tree { return PoweredOff; }
      if !w.opensVerity(Vdc, Vdd, workloadRoothash) { return PoweredOff; }
      if !w.mounts(Verity(Vdc, Vdd, workloadRoothash), true) { return PoweredOff; }
      workload := Some(Mounted(Verity(Vdc, Vdd, workloadRoothash), true));
    }
    return Up(root, workload, w.hasInit);
  }
}
