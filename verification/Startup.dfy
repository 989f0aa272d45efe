/** Start-up: initialising the firewall gives the kernel that runs and recovery start from. */
module Startup {
  import opened Nft
  import opened Firewall
  import opened Supervisor
  import opened DnatRules
  import opened Translations
  import opened Traffic
  import RecoveredFirewall

  ghost predicate NothingTranslated(rs: Ruleset, chain: string) {
    forall e :: e in rs ==> Bystander(e, chain)
  }

  /** Looking base chains up, or creating them, adds no rule. */
  lemma FindOrCreateAddsNoRule(snapshot: Ruleset, k: Kernel, f: Family, h: Hook)
    requires WellFormed(k) && snapshot <= k.rules && HookTable(snapshot, f, h) == HookTable(k.rules, f, h)
    requires FindOrCreate(snapshot, k, f, h).Some?
    ensures forall e :: e in FindOrCreate(snapshot, k, f, h).value.1.rules && e.Rule? ==> e in k.rules
  {
    if HookTable(snapshot, f, h).None? { CreateAppends(k, f, h); }
  }

  lemma PrepareAddsNoRule(c: Config, k: Kernel)
    requires WellFormed(k) && Prepare(c, k).Some?
    ensures forall e :: e in Prepare(c, k).value.k.rules && e.Rule? ==> e in k.rules
  {
    var (natTable, k1) := FindOrCreate(k.rules, k, Ip, Postrouting).value;
    FindOrCreateHooks(k.rules, k, Ip, Postrouting);
    FindOrCreateAddsNoRule(k.rules, k, Ip, Postrouting);
    var (filterTable, k2) := FindOrCreate(k.rules, k1, Ip, Forward).value;
    FindOrCreateHooks(k.rules, k1, Ip, Forward);
    FindOrCreateAddsNoRule(k.rules, k1, Ip, Forward);
    var (preTable, k3) := FindOrCreate(k.rules, k2, Ip, Prerouting).value;
    FindOrCreateHooks(k.rules, k2, Ip, Prerouting);
    FindOrCreateAddsNoRule(k.rules, k2, Ip, Prerouting);
    if c.ipv6Enabled { FindOrCreateAddsNoRule(k3.rules, k3, Ip6, Forward); }
  }

  lemma LandAddsNoDnat(k: Kernel, snapshot: Ruleset, wants: seq<Want>, chain: string)
    requires NothingTranslated(k.rules, chain)
    ensures NothingTranslated(Land(k, snapshot, wants).rules, chain)
  {
    LandAppends(k, snapshot, wants);
    var end := Land(k, snapshot, wants).rules;
    forall e | e in end ensures Bystander(e, chain) {
      if e !in k.rules {
        assert end == k.rules + end[|k.rules|..];
        var w, h :| w in wants && e == EntryFor(w, h);
        GeneratedHasNoDnat(w, h, chain);
      }
    }
  }

  lemma TranslatesNothing(c: Config, k: Kernel)
    requires WellFormed(k) && NothingTranslated(k.rules, c.SupervisorPrerouting())
    ensures Agrees(c, k, {})
  {
    forall d ensures Installed(k.rules, c.SupervisorPrerouting(), d) == 0 {
      BystandersCountNothing(k.rules, c.SupervisorPrerouting(), d);
    }
  }

  /** On a kernel without forwards in the supervisor chain, however its tables stand otherwise,
      initialisation that goes through leaves every supervisor chain in place and nothing
      translated: the state every run starts from. */
  lemma InitializeIsInitial(c: Config, k: Kernel)
    requires WellFormed(k) && Initialize(c, k).Some? && NothingTranslated(k.rules, c.SupervisorPrerouting())
    ensures Agrees(c, Initialize(c, k).value, {})
    ensures RecoveredFirewall.Anchored(c, Initialize(c, k).value)
  {
    var p := Prepare(c, k).value;
    var chain := c.SupervisorPrerouting();
    PlanIsAccepted(c, k);
    PrepareAddsNoRule(c, k);
    LandAddsNoDnat(p.k, p.snapshot4, p.v4, chain);
    LandAddsNoDnat(Land(p.k, p.snapshot4, p.v4), p.k.rules, p.v6, chain);
    InitializeEnablesSetup(c, k, "", "");
    TranslatesNothing(c, Initialize(c, k).value);
  }

  lemma PlanShape(c: Config, k: Kernel)
    requires Prepare(c, k).Some?
    ensures var v4 := Prepare(c, k).value.v4;
            && |v4| > 4 && v4[4] == WantConntrack(Ip, v4[4].table, c.SupervisorFilter())
            && forall w :: w in v4 ==> w.WantChain? || w.WantJump? || w.WantConntrack?
  {
  }

  /** On a kernel without rules in a supervisor filter chain, initialisation that goes through
      puts a rule there that accepts the packets of known connections and does nothing else. */
  lemma InitializeAcceptsReplies(c: Config, k: Kernel)
    requires WellFormed(k) && Initialize(c, k).Some?
    requires forall e :: e in k.rules && e.Rule? ==> e.chain != c.SupervisorFilter()
    ensures exists e :: e in Initialize(c, k).value.rules && AcceptsReplies(e)
                        && e.family == Ip && e.chain == c.SupervisorFilter()
  {
    var p := Prepare(c, k).value;
    PlanIsAccepted(c, k);
    PrepareAddsNoRule(c, k);
    PlanShape(c, k);
    var mid, t := Land(p.k, p.snapshot4, p.v4), p.v4[4].table;
    assert p.v4[4] in p.v4;
    LandedConntrack(p.k, p.snapshot4, p.v4, Ip, t, c.SupervisorFilter());
    LandAppends(mid, p.k.rules, p.v6);
    var e :| e in mid.rules && BelongsTo(e, Ip, t, c.SupervisorFilter()) && AcceptsReplies(e);
    assert e in Finish(p).rules;
  }
}
