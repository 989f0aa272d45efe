/** Runs with restarts: operations and any number of recoveries, in any order. */
module History {
  import opened Words
  import opened PortForwards
  import opened DnatRules
  import opened Translations
  import opened Ledger
  import opened LedgerSafety
  import opened LedgerAgreement
  import opened Recovery
  import opened RecoveredFirewall
  import Nft
  import VmChains

  /** An operation, or a restart: blank is the new manager over the old state directory, with
      whatever ruleset the kernel then has, order the files that could be read. */
  datatype Event =
    | Operate(op: Op)
    | Restart(blank: Node, order: seq<string>, env: RecoverEnv)

  // ---- what a history keeps ----

  /** A sound ledger over a well-formed kernel whose disk mirrors it. */
  ghost predicate Recoverable(g: Setting, n: Node) { Sound(g, n) && Mirrored(n) && Nft.WellFormed(n.kernel) }

  /** The new manager is blank, and recovery reads each file at most once. */
  ghost predicate CanRestart(g: Setting, n: Node, blank: Node, order: seq<string>) {
    && Blank(g, blank, n.disk) && Nft.WellFormed(blank.kernel)
    && ReadOnce(order) && Elements(order) <= n.disk.Keys
  }

  /** n' comes from n by the event. */
  ghost predicate Happens(g: Setting, n: Node, e: Event, n': Node) {
    Recoverable(g, n) ==>
      match e
      case Operate(op) => Possible(g, n, op) && n' == Apply(g, n, op)
      case Restart(blank, order, env) => CanRestart(g, n, blank, order) && n' == RecoverAll(g, blank, order, env)
  }

  ghost predicate IsHistory(g: Setting, states: seq<Node>, events: seq<Event>) {
    && |states| == |events| + 1 && Initial(g, states[0])
    && forall i :: 0 <= i < |events| ==> Happens(g, states[i], events[i], states[i + 1])
  }

  /** The event changes every file it has to change, or reads every file there is. */
  ghost predicate KeepsMirror(g: Setting, n: Node, e: Event) {
    match e
    case Operate(op) => FilesWork(g, n, op)
    case Restart(_, order, _) => Elements(order) == n.disk.Keys
  }

  // ---- the kernel stays well formed through a recovery ----

  lemma {:induction false} ReplayWellFormed(g: Setting, k: Nft.Kernel, id: string, s: Saved, fs: seq<PortForward>,
                                            up: Key -> bool)
    requires Nft.WellFormed(k)
    ensures Nft.WellFormed(Replayed(g.firewall, k, id, s.ip, fs, up))
    decreases |fs|
  {
    if fs != [] {
      var d := TargetFor(fs[0], s.ip);
      var r := AddForward(g.firewall, k, id, d, up(KeyOf(fs[0])));
      if r.Ok? { AddForwardWellFormed(g.firewall, k, id, d, up(KeyOf(fs[0]))); }
      ReplayWellFormed(g, if r.Ok? then r.value else k, id, s, fs[1..], up);
    }
  }

  lemma OneWellFormed(g: Setting, k: Nft.Kernel, id: string, s: Saved, env: RecoverEnv)
    requires Nft.WellFormed(k)
    ensures Nft.WellFormed(RestoredKernel(g.firewall, k, id, s, env))
  {
    if env.running(id) {
      var setup := VmChains.SetupVm(g.firewall, k, id, s.tap, env.setup(id));
      if setup.Ok? { VmChains.SetupIsAccepted(g.firewall, k, id, s.tap); }
      ReplayWellFormed(g, if setup.Ok? then setup.value else k, id, s, s.forwards, env.forward);
    }
  }

  lemma {:induction false} RecoveryWellFormed(g: Setting, f: Node, order: seq<string>, env: RecoverEnv)
    requires Nft.WellFormed(f.kernel)
    ensures Nft.WellFormed(RecoverAll(g, f, order, env).kernel)
  {
    if order != [] {
      var before, id := order[..|order| - 1], order[|order| - 1];
      RecoveryWellFormed(g, f, before, env);
      if id in f.disk { OneWellFormed(g, RecoverAll(g, f, before, env).kernel, id, f.disk[id], env); }
    }
  }

  // ---- one event ----

  /** One event keeps the ledger sound and the kernel well formed, and the disk a mirror exactly
      when its files work. */
  lemma EventKeepsExactlyWhen(g: Setting, n: Node, e: Event, n': Node)
    requires Recoverable(g, n) && Happens(g, n, e, n')
    ensures Sound(g, n') && Nft.WellFormed(n'.kernel)
    ensures Recoverable(g, n') <==> KeepsMirror(g, n, e)
  {
    match e
    case Operate(op) =>
      StepIsSound(g, n, op);
      StepWellFormed(g, n, op);
      StepMirrorsExactlyWhen(g, n, op);
    case Restart(blank, order, env) =>
      assert n.disk.Keys == n.vms.Keys;
      RecoveredIsSound(g, n, blank, order, env);
      RecoveryWellFormed(g, blank, order, env);
  }

  lemma InitialIsRecoverable(g: Setting, n: Node)
    requires Initial(g, n)
    ensures Recoverable(g, n)
  {
    InitialIsSound(g, n);
  }

  // ---- every history ----

  /** As long as files work, any mix of operations and restarts leaves a sound ledger whose disk
      mirrors it; nft may fail wherever a file is not at stake. */
  lemma {:induction false} EveryHistoryIsRecoverable(g: Setting, states: seq<Node>, events: seq<Event>, i: nat)
    requires IsHistory(g, states, events) && i < |states|
    requires forall j :: 0 <= j < i ==> KeepsMirror(g, states[j], events[j])
    ensures Recoverable(g, states[i])
  {
    if i == 0 {
      InitialIsRecoverable(g, states[0]);
    } else {
      EveryHistoryIsRecoverable(g, states, events, i - 1);
      assert Happens(g, states[i - 1], events[i - 1], states[i]);
      EventKeepsExactlyWhen(g, states[i - 1], events[i - 1], states[i]);
    }
  }

  lemma {:induction false} MirroredIsRecoverable(g: Setting, states: seq<Node>, events: seq<Event>, i: nat)
    requires IsHistory(g, states, events) && i < |states| && forall j :: 0 <= j <= i ==> Mirrored(states[j])
    ensures Recoverable(g, states[i])
  {
    if i == 0 {
      InitialIsRecoverable(g, states[0]);
    } else {
      MirroredIsRecoverable(g, states, events, i - 1);
      assert Happens(g, states[i - 1], events[i - 1], states[i]);
      EventKeepsExactlyWhen(g, states[i - 1], events[i - 1], states[i]);
    }
  }

  lemma MirrorWasKept(g: Setting, states: seq<Node>, events: seq<Event>, j: nat)
    requires IsHistory(g, states, events) && j < |events| && forall i :: 0 <= i < |states| ==> Mirrored(states[i])
    ensures KeepsMirror(g, states[j], events[j])
  {
    MirroredIsRecoverable(g, states, events, j);
    assert Happens(g, states[j], events[j], states[j + 1]);
    EventKeepsExactlyWhen(g, states[j], events[j], states[j + 1]);
  }

  /** The disk mirrors memory throughout a history exactly when every event's files work. */
  lemma HistoryMirrorsExactlyWhen(g: Setting, states: seq<Node>, events: seq<Event>)
    requires IsHistory(g, states, events)
    ensures (forall i :: 0 <= i < |states| ==> Mirrored(states[i]))
            <==> forall j :: 0 <= j < |events| ==> KeepsMirror(g, states[j], events[j])
  {
    if forall j :: 0 <= j < |events| ==> KeepsMirror(g, states[j], events[j]) {
      forall i | 0 <= i < |states| ensures Mirrored(states[i]) {
        EveryHistoryIsRecoverable(g, states, events, i);
      }
    }
    if forall i :: 0 <= i < |states| ==> Mirrored(states[i]) {
      forall j | 0 <= j < |events| ensures KeepsMirror(g, states[j], events[j]) {
        MirrorWasKept(g, states, events, j);
      }
    }
  }

  /** A crash at any point of such a history, whatever crashes came before, is recovered from. */
  lemma EveryCrashIsRecovered(g: Setting, states: seq<Node>, events: seq<Event>, i: nat, f: Node, order: seq<string>,
                              env: RecoverEnv)
    requires IsHistory(g, states, events) && i < |states|
    requires forall j :: 0 <= j < i ==> KeepsMirror(g, states[j], events[j])
    requires Blank(g, f, states[i].disk) && ListsIds(order, states[i].disk.Keys)
    ensures var r := RecoverAll(g, f, order, env);
            && Rebuilt(g, states[i], r, states[i].vms.Keys, env) && r.forwards == states[i].forwards
            && Sound(g, r) && Mirrored(r)
  {
    EveryHistoryIsRecoverable(g, states, events, i);
    assert states[i].disk.Keys == states[i].vms.Keys;
    RecoveryRebuilds(g, states[i], f, order, env);
    RecoveredIsSound(g, states[i], f, order, env);
  }

  /** A removal that nft refuses is forgotten in memory but not on disk, so a restart brings the
      forward back. */
  lemma LostRemovalComesBack(g: Setting, n: Node, hostPort: U16, protocol: Protocol, env: ForwardEnv,
                             f: Node, order: seq<string>, renv: RecoverEnv)
    requires Recoverable(g, n) && (hostPort, protocol) in n.forwards && !env.nft
    requires Blank(g, f, n.disk) && ListsIds(order, n.disk.Keys)
    ensures var n' := RemoveForwardFrom(g, n, hostPort, protocol, env).0;
            n'.disk == f.disk && (hostPort, protocol) !in n'.forwards
    ensures (hostPort, protocol) in RecoverAll(g, f, order, renv).forwards
  {
    assert n.disk.Keys == n.vms.Keys;
    RemoveWrites(g, n, hostPort, protocol, env);
    RecoveryRebuilds(g, n, f, order, renv);
  }

  // ---- translations through restarts ----

  /** The event removes every rule it has to remove; a restart finds nothing foreign installed and
      replays every recovered forward that is not installed already. */
  ghost predicate KeepsTranslations(g: Setting, n: Node, e: Event) {
    match e
    case Operate(op) => RemovalsWork(n, op)
    case Restart(blank, order, env) =>
      var want := TargetsOfKernel(g.firewall, blank.kernel);
      && want <= Called(n, Elements(order))
      && EachBackOrThere(g.firewall, blank.kernel, n, Elements(order), env, want)
  }

  /** A restart finds the supervisor chains, as after initialisation. */
  ghost predicate ChainsThere(g: Setting, e: Event) { e.Restart? ==> Anchored(g.firewall, e.blank.kernel) }

  /** One event keeps kernel and memory in agreement exactly when it does its part. */
  lemma EventAgreesExactlyWhen(g: Setting, n: Node, e: Event, n': Node)
    requires Recoverable(g, n) && Happens(g, n, e, n') && ChainsThere(g, e) && FirewallAgrees(g, n)
    ensures FirewallAgrees(g, n') <==> KeepsTranslations(g, n, e)
  {
    match e
    case Operate(op) => StepAgreesExactlyWhen(g, n, op);
    case Restart(blank, order, env) =>
      assert n.disk.Keys == n.vms.Keys;
      RecoveryAgreesExactlyWhen(g, n, blank, order, env);
  }

  lemma {:induction false} EveryHistoryTranslates(g: Setting, states: seq<Node>, events: seq<Event>, i: nat)
    requires IsHistory(g, states, events) && i < |states|
             && forall j :: 0 <= j < i ==> KeepsMirror(g, states[j], events[j])
    requires forall j :: 0 <= j < i ==> ChainsThere(g, events[j]) && KeepsTranslations(g, states[j], events[j])
    ensures Recoverable(g, states[i]) && FirewallAgrees(g, states[i])
  {
    EveryHistoryIsRecoverable(g, states, events, i);
    if i == 0 {
      InitialAgrees(g, states[0]);
    } else {
      EveryHistoryTranslates(g, states, events, i - 1);
      assert Happens(g, states[i - 1], events[i - 1], states[i]);
      EventAgreesExactlyWhen(g, states[i - 1], events[i - 1], states[i]);
    }
  }

  lemma TranslationsWereKept(g: Setting, states: seq<Node>, events: seq<Event>, j: nat)
    requires IsHistory(g, states, events) && j < |events|
             && forall i :: 0 <= i < |events| ==> KeepsMirror(g, states[i], events[i])
    requires ChainsThere(g, events[j]) && FirewallAgrees(g, states[j]) && FirewallAgrees(g, states[j + 1])
    ensures KeepsTranslations(g, states[j], events[j])
  {
    EveryHistoryIsRecoverable(g, states, events, j);
    assert Happens(g, states[j], events[j], states[j + 1]);
    EventAgreesExactlyWhen(g, states[j], events[j], states[j + 1]);
  }

  /** Through any number of restarts, while files work, the kernel translates exactly the
      port-forward map throughout if and only if every event does its part. */
  lemma HistoryTranslatesExactlyWhen(g: Setting, states: seq<Node>, events: seq<Event>)
    requires IsHistory(g, states, events) && forall j :: 0 <= j < |events| ==> KeepsMirror(g, states[j], events[j])
    requires forall j :: 0 <= j < |events| ==> ChainsThere(g, events[j])
    ensures (forall i :: 0 <= i < |states| ==> FirewallAgrees(g, states[i]))
            <==> forall j :: 0 <= j < |events| ==> KeepsTranslations(g, states[j], events[j])
  {
    if forall j :: 0 <= j < |events| ==> KeepsTranslations(g, states[j], events[j]) {
      forall i | 0 <= i < |states| ensures FirewallAgrees(g, states[i])
        { EveryHistoryTranslates(g, states, events, i); }
    }
    if forall i :: 0 <= i < |states| ==> FirewallAgrees(g, states[i]) {
      forall j | 0 <= j < |events| ensures KeepsTranslations(g, states[j], events[j]) {
        TranslationsWereKept(g, states, events, j);
      }
    }
  }
}
