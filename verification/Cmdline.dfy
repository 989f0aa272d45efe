/** The kernel command line: printed by the host, read back by the guest's sed patterns. */
module Cmdline {
  import opened Wrappers

  predicate IsHex(c: char) {
    '0' <= c <= '9' || 'a' <= c <= 'f' || 'A' <= c <= 'F'
  }

  predicate AllHex(s: string) { forall i :: 0 <= i < |s| ==> IsHex(s[i]) }

  // ---- the host prints ----

  const CONSOLE := "console=ttyS0 "
  const ROOT := "root="
  const MAPPED := "/dev/mapper/verity-root ro "
  const ROOTHASH := "roothash="
  const DIRECT := "/dev/vda ro"
  const WORKLOAD := " workload_roothash="
  const LUKS := "luks=1"

  function Head(roothash: Option<string>): string {
    match roothash
    case Some(hash) => CONSOLE + ROOT + MAPPED + ROOTHASH + hash
    case None => CONSOLE + ROOT + DIRECT
  }

  function Tail(workloadRoothash: Option<string>): string {
    match workloadRoothash
    case Some(hash) => WORKLOAD + hash
    case None => ""
  }

  function BuildKernelCmdline(roothash: Option<string>, workloadRoothash: Option<string>, encrypted: bool): string {
    if encrypted then CONSOLE + LUKS
    else Head(roothash) + Tail(workloadRoothash)
  }

  // ---- the guest reads ----

  const WORKLOAD_KEY := "workload_roothash="

  predicate IsWord(c: char) {
    '0' <= c <= '9' || 'a' <= c <= 'z' || 'A' <= c <= 'Z' || c == '_'
  }

  /** The word-boundary assertion at position i. */
  predicate Boundary(line: string, i: nat)
    requires i <= |line|
  {
    (i > 0 && IsWord(line[i - 1])) != (i < |line| && IsWord(line[i]))
  }

  /** The literal part of a pattern matches at position i. */
  predicate MatchAt(line: string, key: string, wordStart: bool, i: nat) {
    i + |key| <= |line| && line[i..i + |key|] == key && (wordStart ==> Boundary(line, i))
  }

  /** The last position below bound where the pattern matches: the leading star is greedy. */
  function LastMatch(line: string, key: string, wordStart: bool, bound: nat): (r: Option<nat>)
    ensures r.Some? ==> r.value < bound && MatchAt(line, key, wordStart, r.value)
    ensures forall j: nat :: (r.Some? ==> j > r.value) && j < bound ==> !MatchAt(line, key, wordStart, j)
  {
    if bound == 0 then None
    else if MatchAt(line, key, wordStart, bound - 1) then Some(bound - 1)
    else LastMatch(line, key, wordStart, bound - 1)
  }

  /** The longest run of class characters at the start of s. */
  function Run(s: string, inClass: char -> bool): (r: string)
    ensures r <= s
    ensures forall i :: 0 <= i < |r| ==> inClass(r[i])
    ensures |r| < |s| ==> !inClass(s[|r|])
  {
    if s == "" || !inClass(s[0]) then "" else [s[0]] + Run(s[1..], inClass)
  }

  /** The shell variable set from a pattern that captures the class characters after the key
      of its last match; empty when nothing matches. */
  function Variable(line: string, key: string, wordStart: bool, inClass: char -> bool): string {
    match LastMatch(line, key, wordStart, |line| + 1)
    case None => ""
    case Some(i) => Run(line[i + |key|..], inClass)
  }

  function Hex(): char -> bool { c => IsHex(c) }
  function NotSpace(): char -> bool { c => c != ' ' }

  function Roothash(line: string): string { Variable(line, ROOTHASH, true, Hex()) }
  function WorkloadRoothash(line: string): string { Variable(line, WORKLOAD_KEY, false, Hex()) }
  function Luks(line: string): string { Variable(line, "luks=", false, NotSpace()) }
  function KernelIp(line: string): string { Variable(line, "ip=", false, NotSpace()) }

  lemma RoothashIsHex(line: string)
    ensures AllHex(Roothash(line)) && AllHex(WorkloadRoothash(line))
  {
  }

  // ---- where a key can match ----

  lemma LastMatchIs(line: string, key: string, wordStart: bool, i: nat)
    requires MatchAt(line, key, wordStart, i)
    requires forall j: nat :: i < j <= |line| ==> !MatchAt(line, key, wordStart, j)
    ensures LastMatch(line, key, wordStart, |line| + 1) == Some(i)
  {
  }

  lemma RunAll(s: string, rest: string, inClass: char -> bool)
    requires (forall i :: 0 <= i < |s| ==> inClass(s[i])) && (rest != "" ==> !inClass(rest[0]))
    ensures Run(s + rest, inClass) == s
  {
    assert forall i :: 0 <= i < |s| ==> (s + rest)[i] == s[i];
    assert rest != "" ==> (s + rest)[|s|] == rest[0];
    var r := Run(s + rest, inClass);
    assert |r| <= |s + rest|;
    assert |r| == |s|;
    assert forall i :: 0 <= i < |r| ==> r[i] == (s + rest)[i];
  }

  lemma Slices(front: string, key: string, after: string)
    ensures var line := front + (key + after);
            line[|front|..|front| + |key|] == key && line[|front| + |key|..] == after
  {
    var line := front + (key + after);
    assert line[|front|..] == key + after;
    assert line[|front|..][..|key|] == line[|front|..|front| + |key|];
  }

  /** A variable whose last match is at |front| holds the class characters that follow. */
  lemma VariableIs(front: string, key: string, value: string, rest: string, wordStart: bool, inClass: char -> bool)
    requires var line := front + (key + (value + rest));
             && (wordStart ==> Boundary(line, |front|))
             && forall j: nat :: |front| < j <= |line| ==> !MatchAt(line, key, wordStart, j)
    requires (forall i :: 0 <= i < |value| ==> inClass(value[i])) && (rest != "" ==> !inClass(rest[0]))
    ensures Variable(front + (key + (value + rest)), key, wordStart, inClass) == value
  {
    var line := front + (key + (value + rest));
    Slices(front, key, value + rest);
    assert |front| + |key| <= |line|;
    VariableAt(line, key, wordStart, inClass, |front|, value + rest);
    RunAll(value, rest, inClass);
  }

  lemma VariableAt(line: string, key: string, wordStart: bool, inClass: char -> bool, i: nat, after: string)
    requires MatchAt(line, key, wordStart, i) && line[i + |key|..] == after
    requires forall j: nat :: i < j <= |line| ==> !MatchAt(line, key, wordStart, j)
    ensures Variable(line, key, wordStart, inClass) == Run(after, inClass)
  {
    LastMatchIs(line, key, wordStart, i);
  }

  /** A key that ends in '=' matches only where the line has '=' and the key's last letter
      stands before it. */
  lemma MatchEndsAtEquals(line: string, key: string, wordStart: bool, i: nat)
    requires |key| >= 2 && key[|key| - 1] == '=' && MatchAt(line, key, wordStart, i)
    ensures var e := i + |key| - 1;
            line[e] == '=' && line[e - 1] == key[|key| - 2]
  {
    var part := line[i..i + |key|];
    assert part[|key| - 1] == line[i + |key| - 1] && part[|key| - 2] == line[i + |key| - 2];
  }

  /** Every '=' of s stands at e, and the letter before it is c. */
  ghost predicate OneEquals(s: string, e: nat, c: char) {
    0 < e < |s| && s[e] == '=' && s[e - 1] == c && forall j :: 0 <= j < |s| && s[j] == '=' ==> j == e
  }

  ghost predicate NoEquals(s: string) { forall j :: 0 <= j < |s| ==> s[j] != '=' }

  lemma PieceFacts()
    ensures |CONSOLE| == 14 && OneEquals(CONSOLE, 7, 'e')
    ensures |ROOT| == 5 && OneEquals(ROOT, 4, 't')
    ensures |ROOTHASH| == 9 && OneEquals(ROOTHASH, 8, 'h')
    ensures |WORKLOAD| == 19 && OneEquals(WORKLOAD, 18, 'h')
    ensures |DIRECT| == 11 && NoEquals(DIRECT)
    ensures |MAPPED| == 27 && NoEquals(MAPPED)
  {
  }

  predicate HexOrNone(hash: Option<string>) { hash.Some? ==> AllHex(hash.value) }

  /** The value the guest should hold for an optional hash. */
  function OrEmpty(hash: Option<string>): string { match hash case Some(h) => h case None => "" }

  /** The letter at each position of the head. */
  lemma HeadAt(r: Option<string>, e: int)
    requires 0 <= e < |Head(r)|
    ensures Head(r)[e] ==
      if e < 14 then CONSOLE[e]
      else if e < 19 then ROOT[e - 14]
      else if r.None? then DIRECT[e - 19]
      else if e < 46 then MAPPED[e - 19]
      else if e < 55 then ROOTHASH[e - 46]
      else r.value[e - 55]
  {
    PieceFacts();
  }

  lemma HeadEquals(r: Option<string>, e: int)
    requires HexOrNone(r) && 0 <= e < |Head(r)| && Head(r)[e] == '='
    ensures e == 7 || e == 18 || (r.Some? && e == 54)
    ensures Head(r)[e - 1] == (if e == 7 then 'e' else if e == 18 then 't' else 'h')
  {
    PieceFacts();
    HeadAt(r, e);
    if e > 0 { HeadAt(r, e - 1); }
  }

  lemma TailEquals(w: Option<string>, e: int)
    requires HexOrNone(w) && 0 <= e < |Tail(w)| && Tail(w)[e] == '='
    ensures e == 18 && Tail(w)[e - 1] == 'h'
  {
    PieceFacts();
  }

  /** Where a key ending in '=' can match the printed line: only before one of its '=' signs,
      and only if the key's last letter is the one printed there. */
  lemma MatchesOfLine(r: Option<string>, w: Option<string>, key: string, wordStart: bool, i: nat)
    requires HexOrNone(r) && HexOrNone(w) && |key| >= 2 && key[|key| - 1] == '='
    requires MatchAt(Head(r) + Tail(w), key, wordStart, i)
    ensures var e := i + |key| - 1;
            || (key[|key| - 2] == 'e' && e == 7)
            || (key[|key| - 2] == 't' && e == 18)
            || (key[|key| - 2] == 'h' && ((r.Some? && e == 54) || (w.Some? && e == |Head(r)| + 18)))
  {
    var line := Head(r) + Tail(w);
    var e := i + |key| - 1;
    MatchEndsAtEquals(line, key, wordStart, i);
    if e < |Head(r)| {
      assert line[e] == Head(r)[e];
      HeadEquals(r, e);
      assert line[e - 1] == Head(r)[e - 1];
    } else {
      assert line[e] == Tail(w)[e - |Head(r)|];
      TailEquals(w, e - |Head(r)|);
      assert line[e - 1] == Tail(w)[e - 1 - |Head(r)|];
    }
  }

  lemma LuksIsUnset(r: Option<string>, w: Option<string>)
    requires HexOrNone(r) && HexOrNone(w)
    ensures Luks(Head(r) + Tail(w)) == "" && KernelIp(Head(r) + Tail(w)) == ""
  {
    var line := Head(r) + Tail(w);
    if Luks(line) != "" {
      var i := LastMatch(line, "luks=", false, |line| + 1).value;
      MatchesOfLine(r, w, "luks=", false, i);
    }
    if KernelIp(line) != "" {
      var i := LastMatch(line, "ip=", false, |line| + 1).value;
      MatchesOfLine(r, w, "ip=", false, i);
    }
  }

  /** The guest reads the printed root hash, never the one inside workload_roothash. */
  lemma ReadsRoothash(r: Option<string>, w: Option<string>)
    requires HexOrNone(r) && HexOrNone(w)
    ensures Roothash(Head(r) + Tail(w)) == OrEmpty(r)
  {
    var line := Head(r) + Tail(w);
    RoothashMatches(r, w);
    if r.Some? {
      BoundaryAt46(r, w);
      LineFromFront(r.value, w);
      TailStart(w);
      VariableIs(Front(), ROOTHASH, r.value, Tail(w), true, Hex());
    }
  }

  lemma LineFromFront(hash: string, w: Option<string>)
    ensures Head(Some(hash)) + Tail(w) == Front() + (ROOTHASH + (hash + Tail(w)))
  {
    assert Head(Some(hash)) == Front() + ROOTHASH + hash;
    Regroup(Front(), ROOTHASH, hash, Tail(w));
  }

  lemma Regroup(a: string, b: string, c: string, d: string)
    ensures a + b + c + d == a + (b + (c + d))
  {
  }

  lemma RoothashMatches(r: Option<string>, w: Option<string>)
    requires HexOrNone(r) && HexOrNone(w)
    ensures forall i: nat :: MatchAt(Head(r) + Tail(w), ROOTHASH, true, i) ==> r.Some? && i == 46
  {
    var line := Head(r) + Tail(w);
    forall i: nat | MatchAt(line, ROOTHASH, true, i) ensures r.Some? && i == 46 {
      MatchesOfLine(r, w, ROOTHASH, true, i);
      if w.Some? { WorkloadKeyIsNoWord(r, w); }
    }
  }

  lemma WorkloadKeyIsNoWord(r: Option<string>, w: Option<string>)
    requires w.Some?
    ensures |Head(r) + Tail(w)| >= |Head(r)| + 19 && !Boundary(Head(r) + Tail(w), |Head(r)| + 10)
  {
    assert |WORKLOAD| == 19 && WORKLOAD[9] == '_' && WORKLOAD[10] == 'r';
    var line := Head(r) + Tail(w);
    assert line[|Head(r)| + 9] == Tail(w)[9] && line[|Head(r)| + 10] == Tail(w)[10];
  }

  function Front(): string { CONSOLE + ROOT + MAPPED }

  lemma TailStart(w: Option<string>)
    ensures Tail(w) != "" ==> Tail(w)[0] == ' '
  {
    assert |WORKLOAD| == 19 && WORKLOAD[0] == ' ';
  }

  /** The space before roothash= makes it a word start. */
  lemma BoundaryAt46(r: Option<string>, w: Option<string>)
    requires r.Some?
    ensures var line := Head(r) + Tail(w); |Front()| == 46 && |line| > 46 && line[45] == ' ' && Boundary(line, 46)
  {
    PieceFacts();
    var line := Head(r) + Tail(w);
    HeadAt(r, 45);
    HeadAt(r, 46);
    assert line[45] == Head(r)[45] && line[46] == Head(r)[46];
    assert MAPPED[26] == ' ' && ROOTHASH[0] == 'r';
  }

  lemma ReadsWorkloadRoothash(r: Option<string>, w: Option<string>)
    requires HexOrNone(r) && HexOrNone(w)
    ensures WorkloadRoothash(Head(r) + Tail(w)) == OrEmpty(w)
  {
    var line := Head(r) + Tail(w);
    WorkloadMatches(r, w);
    if w.Some? {
      LineFromKey(Head(r), w.value);
      VariableIs(Head(r) + " ", WORKLOAD_KEY, w.value, "", false, Hex());
    }
  }

  lemma LineFromKey(head: string, hash: string)
    ensures head + Tail(Some(hash)) == head + " " + (WORKLOAD_KEY + (hash + ""))
  {
    WorkloadPieces();
    Reassociate(head, " ", WORKLOAD_KEY, hash);
  }

  lemma Reassociate(a: string, b: string, c: string, d: string)
    ensures a + (b + c + d) == a + b + (c + (d + ""))
  {
  }

  lemma WorkloadPieces()
    ensures WORKLOAD == " " + WORKLOAD_KEY
  {
  }

  lemma WorkloadMatches(r: Option<string>, w: Option<string>)
    requires HexOrNone(r) && HexOrNone(w)
    ensures forall i: nat :: MatchAt(Head(r) + Tail(w), WORKLOAD_KEY, false, i) ==> w.Some? && i == |Head(r)| + 1
  {
    var line := Head(r) + Tail(w);
    assert |WORKLOAD_KEY| == 18 && WORKLOAD_KEY[16] == 'h' && WORKLOAD_KEY[17] == '=';
    forall i: nat | MatchAt(line, WORKLOAD_KEY, false, i) ensures w.Some? && i == |Head(r)| + 1 {
      MatchesOfLine(r, w, WORKLOAD_KEY, false, i);
      if r.Some? { NoWorkloadKeyInHead(r, w); }
    }
  }

  lemma NoWorkloadKeyInHead(r: Option<string>, w: Option<string>)
    requires r.Some?
    ensures !MatchAt(Head(r) + Tail(w), WORKLOAD_KEY, false, 37)
  {
    BoundaryAt46(r, w);
    var line := Head(r) + Tail(w);
    assert |WORKLOAD_KEY| == 18 && WORKLOAD_KEY[8] == '_';
    assert 55 <= |line| ==> line[37..55][8] == line[45];
  }

  /** Printing then reading recovers both hashes exactly when they are hex. */
  lemma PrintParseExactlyWhen(r: Option<string>, w: Option<string>)
    ensures var line := BuildKernelCmdline(r, w, false);
            (Roothash(line) == OrEmpty(r) && WorkloadRoothash(line) == OrEmpty(w)) <==> (HexOrNone(r) && HexOrNone(w))
    ensures HexOrNone(r) && HexOrNone(w) ==>
              var line := BuildKernelCmdline(r, w, false);
              Luks(line) == "" && KernelIp(line) == ""
  {
    if HexOrNone(r) && HexOrNone(w) {
      ReadsRoothash(r, w);
      ReadsWorkloadRoothash(r, w);
      LuksIsUnset(r, w);
    }
  }

  lemma LuksFacts()
    ensures |LUKS| == 6 && OneEquals(LUKS, 4, 's') && LUKS[..5] == "luks=" && LUKS[5..] == "1"
  {
  }

  /** The letters before the two '=' signs of the encrypted line. */
  lemma EncryptedEquals(e: int)
    requires 0 <= e < |CONSOLE + LUKS| && (CONSOLE + LUKS)[e] == '='
    ensures (e == 7 && (CONSOLE + LUKS)[e - 1] == 'e') || (e == 18 && (CONSOLE + LUKS)[e - 1] == 's')
  {
    PieceFacts();
    LuksFacts();
  }

  lemma EncryptedMatches(key: string, wordStart: bool, i: nat)
    requires |key| >= 2 && key[|key| - 1] == '=' && MatchAt(CONSOLE + LUKS, key, wordStart, i)
    ensures key[|key| - 2] == 'e' || (key[|key| - 2] == 's' && i + |key| - 1 == 18)
  {
    MatchEndsAtEquals(CONSOLE + LUKS, key, wordStart, i);
    EncryptedEquals(i + |key| - 1);
  }

  lemma ReadsLuks()
    ensures Luks(CONSOLE + LUKS) == "1"
  {
    PieceFacts();
    LuksFacts();
    var line := CONSOLE + LUKS;
    forall i: nat | MatchAt(line, "luks=", false, i) ensures i == 14 { EncryptedMatches("luks=", false, i); }
    assert line == CONSOLE + (LUKS[..5] + ("1" + ""));
    VariableIs(CONSOLE, "luks=", "1", "", false, NotSpace());
  }

  /** The encrypted line selects the passphrase path and carries no hash. */
  lemma EncryptedLine(r: Option<string>, w: Option<string>)
    ensures var line := BuildKernelCmdline(r, w, true);
            Luks(line) == "1" && Roothash(line) == "" && WorkloadRoothash(line) == "" && KernelIp(line) == ""
  {
    var line := CONSOLE + LUKS;
    ReadsLuks();
    forall i: nat ensures !MatchAt(line, ROOTHASH, true, i) {
      if MatchAt(line, ROOTHASH, true, i) { EncryptedMatches(ROOTHASH, true, i); }
    }
    forall i: nat ensures !MatchAt(line, WORKLOAD_KEY, false, i) {
      if MatchAt(line, WORKLOAD_KEY, false, i) { EncryptedMatches(WORKLOAD_KEY, false, i); }
    }
    forall i: nat ensures !MatchAt(line, "ip=", false, i) {
      if MatchAt(line, "ip=", false, i) { EncryptedMatches("ip=", false, i); }
    }
  }
}
