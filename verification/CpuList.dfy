/** The cpulist notation ("0-3,8-11"): printing with range compression, and parsing. */
module CpuList {
  import opened Wrappers
  import opened Words
  import opened Text

  /** All ids from lo to hi; empty when lo > hi. */
  datatype Range = Range(lo: U32, hi: U32)

  function Span(lo: nat, hi: U32): (s: set<U32>)
    ensures forall x: U32 :: x in s <==> lo <= x <= hi
    decreases hi + 1 - lo
  {
    if lo > hi then {} else {lo} + Span(lo + 1, hi)
  }

  function Members(r: Range): set<U32> {
    Span(r.lo, r.hi)
  }

  function Cover(rs: seq<Range>): set<U32> {
    if rs == [] then {} else Members(rs[0]) + Cover(rs[1..])
  }

  /** Non-empty ranges in ascending order, with a gap between neighbours. */
  ghost predicate Canonical(rs: seq<Range>) {
    && (forall i :: 0 <= i < |rs| ==> rs[i].lo <= rs[i].hi)
    && (forall i, j :: 0 <= i < j < |rs| ==> rs[i].hi + 1 < rs[j].lo)
  }

  lemma {:induction false} InCover(rs: seq<Range>, x: U32)
    ensures x in Cover(rs) <==> exists i :: 0 <= i < |rs| && rs[i].lo <= x <= rs[i].hi
  {
    if rs != [] {
      InCover(rs[1..], x);
      if i :| 0 <= i < |rs| && rs[i].lo <= x <= rs[i].hi {
        if i > 0 {
          assert rs[1..][i - 1] == rs[i];
        }
      }
    }
  }

  lemma {:induction false} CoverAppend(rs: seq<Range>, r: Range)
    ensures Cover(rs + [r]) == Cover(rs) + Members(r)
  {
    if rs == [] {
      assert rs + [r] == [r];
    } else {
      CoverAppend(rs[1..], r);
      assert (rs + [r])[1..] == rs[1..] + [r];
    }
  }

  lemma CanonicalHead(rs: seq<Range>, x: U32)
    requires Canonical(rs) && rs != [] && x in Cover(rs[1..])
    ensures x > rs[0].hi + 1
  {
    InCover(rs[1..], x);
    var i :| 0 <= i < |rs[1..]| && rs[1..][i].lo <= x <= rs[1..][i].hi;
    assert rs[1..][i] == rs[i + 1];
  }

  /** A set has only one canonical list of ranges. */
  lemma {:induction false} CanonicalUnique(a: seq<Range>, b: seq<Range>)
    requires Canonical(a) && Canonical(b) && Cover(a) == Cover(b)
    ensures a == b
  {
    NonEmptyCover(a);
    NonEmptyCover(b);
    if a != [] && b != [] {
      HeadNotAfter(a, b);
      HeadNotAfter(b, a);
      assert a[0] == b[0];
      forall x: U32
        ensures x in Cover(a[1..]) <==> x in Cover(b[1..])
      {
        if x in Cover(a[1..]) { CanonicalHead(a, x); assert x in Cover(b); }
        if x in Cover(b[1..]) { CanonicalHead(b, x); assert x in Cover(a); }
      }
      CanonicalUnique(a[1..], b[1..]);
    }
  }

  lemma NonEmptyCover(rs: seq<Range>)
    requires Canonical(rs)
    ensures Cover(rs) == {} <==> rs == []
  {
    if rs != [] {
      assert rs[0].lo in Members(rs[0]);
    }
  }

  lemma HeadNotAfter(a: seq<Range>, b: seq<Range>)
    requires a != [] && b != [] && Canonical(a) && Canonical(b) && Cover(a) == Cover(b)
    ensures a[0].lo <= b[0].lo
    ensures a[0].lo == b[0].lo ==> a[0].hi >= b[0].hi
  {
    assert b[0].lo in Members(b[0]) && b[0].lo in Cover(a);
    if b[0].lo !in Members(a[0]) {
      CanonicalHead(a, b[0].lo);
    }
    if a[0].lo == b[0].lo && a[0].hi < b[0].hi {
      var next: U32 := a[0].hi + 1;
      assert next in Members(b[0]);
      if next in Cover(a[1..]) {
        CanonicalHead(a, next);
      }
      assert false;
    }
  }

  ghost predicate IsLeast(m: U32, s: set<U32>) {
    m in s && forall y :: y in s ==> m <= y
  }

  lemma {:induction false} LeastExists(s: set<U32>)
    requires s != {}
    ensures exists m :: IsLeast(m, s)
    decreases |s|
  {
    var x :| x in s;
    var t := s - {x};
    assert forall y :: y in s ==> y == x || y in t;
    if t == {} {
      assert IsLeast(x, s);
    } else {
      LeastExists(t);
      var m :| IsLeast(m, t);
      assert IsLeast(if x <= m then x else m, s);
    }
  }

  /** Next id of an ordered iteration over what is left of a set. */
  method Least(s: set<U32>) returns (m: U32)
    requires s != {}
    ensures IsLeast(m, s)
  {
    LeastExists(s);
    m :| m in s && forall y :: y in s ==> m <= y;
  }

  /** Last id of the unbroken run of s that contains x. */
  ghost function RunEnd(s: set<U32>, x: U32): (e: U32)
    requires x in s
    ensures x <= e && e in s && (e + 1 < TWO32 ==> e + 1 !in s)
    ensures forall y :: x <= y <= e ==> y in s
    decreases TWO32 - x
  {
    if x + 1 < TWO32 && x + 1 in s then RunEnd(s, x + 1) else x
  }

  /** The canonical ranges of a set. */
  ghost function Ranges(s: set<U32>): (rs: seq<Range>)
    ensures Canonical(rs) && Cover(rs) == s
    ensures rs == [] <==> s == {}
    decreases |s|
  {
    if s == {} then []
    else
      LeastExists(s);
      var lo :| IsLeast(lo, s);
      var head := Range(lo, RunEnd(s, lo));
      assert lo in Members(head);
      SubsetSmaller(s - Members(head), s);
      var tail := Ranges(s - Members(head));
      TailAfterRun(s, head, tail);
      [head] + tail
  }

  lemma SubsetSmaller(a: set<U32>, b: set<U32>)
    requires a < b
    ensures |a| < |b|
  {
    assert |b| == |a| + |b - a|;
  }

  lemma TailAfterRun(s: set<U32>, head: Range, tail: seq<Range>)
    requires IsLeast(head.lo, s)
    requires head.hi == RunEnd(s, head.lo)
    requires Canonical(tail) && Cover(tail) == s - Members(head)
    ensures Canonical([head] + tail) && Cover([head] + tail) == s
  {
    var rs := [head] + tail;
    assert rs[1..] == tail;
    assert Members(head) <= s;
    forall j | 0 <= j < |tail|
      ensures head.hi + 1 < tail[j].lo
    {
      InCover(tail, tail[j].lo);
      assert tail[j].lo in s - Members(head);
    }
  }

  // ---- printing ----

  function RangeText(r: Range): string {
    if r.lo == r.hi then Decimal(r.lo) else Decimal(r.lo) + "-" + Decimal(r.hi)
  }

  function Render(rs: seq<Range>): string {
    if rs == [] then ""
    else if |rs| == 1 then RangeText(rs[0])
    else RangeText(rs[0]) + "," + Render(rs[1..])
  }

  /** The text of a set: its canonical ranges, comma separated. */
  ghost function Format(cpus: set<U32>): string {
    Render(Ranges(cpus))
  }

  lemma {:induction false} RenderAppend(rs: seq<Range>, r: Range)
    requires rs != []
    ensures Render(rs) != "" && Render(rs + [r]) == Render(rs) + "," + RangeText(r)
  {
    if |rs| == 1 {
      assert (rs + [r])[1..] == [r];
    } else {
      RenderAppend(rs[1..], r);
      assert (rs + [r])[1..] == rs[1..] + [r];
    }
  }

  /** The separator and range text flushed by the printing loop. */
  function Flushed(result: string, lo: U32, hi: U32): string {
    (if result != "" then result + "," else result)
    + (if lo == hi then Decimal(lo) else Decimal(lo) + "-" + Decimal(hi))
  }

  lemma FlushRenders(rs: seq<Range>, r: Range)
    ensures Flushed(Render(rs), r.lo, r.hi) == Render(rs + [r])
  {
    if rs != [] {
      RenderAppend(rs, r);
    }
  }

  /** State of the printing loop: the ids seen so far are the flushed ranges and the open one. */
  ghost predicate Printed(done: seq<Range>, open: Range, seen: set<U32>, result: string) {
    && Canonical(done + [open])
    && Cover(done) + Members(open) == seen
    && result == Render(done)
  }

  lemma ExtendOpen(done: seq<Range>, lo: U32, hi: U32, seen: set<U32>, result: string)
    requires hi + 1 < TWO32 && Printed(done, Range(lo, hi), seen, result)
    ensures Printed(done, Range(lo, hi + 1), seen + {hi + 1}, result)
  {
    var a, b := done + [Range(lo, hi)], done + [Range(lo, hi + 1)];
    assert forall i :: 0 <= i < |done| ==> b[i] == a[i];
    assert a[|done|] == Range(lo, hi);
  }

  lemma FlushOpen(done: seq<Range>, open: Range, seen: set<U32>, result: string, cpu: U32)
    requires Printed(done, open, seen, result) && open.hi + 1 < cpu
    ensures Printed(done + [open], Range(cpu, cpu), seen + {cpu}, Flushed(result, open.lo, open.hi))
  {
    FlushRenders(done, open);
    CoverAppend(done, open);
    var rs := done + [open];
    var b := rs + [Range(cpu, cpu)];
    assert forall i :: 0 <= i < |rs| ==> b[i] == rs[i] && rs[i].hi <= rs[|rs| - 1].hi;
  }

  lemma FlushLast(done: seq<Range>, open: Range, seen: set<U32>, result: string)
    requires Printed(done, open, seen, result)
    ensures Flushed(result, open.lo, open.hi) == Format(seen)
  {
    FlushRenders(done, open);
    CoverAppend(done, open);
    CanonicalUnique(done + [open], Ranges(seen));
  }

  method FormatCpuset(cpus: set<U32>) returns (result: string)
    ensures result == Format(cpus)
  {
    result := "";
    if cpus == {} {
      return;
    }
    var first := Least(cpus);
    var rest := cpus - {first};
    var rangeStart, rangeEnd := first, first;
    ghost var done: seq<Range> := [];
    ghost var seen := {first};
    while rest != {}
      invariant seen + rest == cpus && rangeStart <= rangeEnd
      invariant Printed(done, Range(rangeStart, rangeEnd), seen, result)
      invariant forall x :: x in rest ==> x > rangeEnd
      decreases rest
    {
      var cpu := Least(rest);
      var successor: U32 := rangeEnd + 1;
      if cpu == successor {
        ExtendOpen(done, rangeStart, rangeEnd, seen, result);
        rangeEnd := cpu;
      } else {
        FlushOpen(done, Range(rangeStart, rangeEnd), seen, result, cpu);
        result := Flushed(result, rangeStart, rangeEnd);
        done := done + [Range(rangeStart, rangeEnd)];
        rangeStart, rangeEnd := cpu, cpu;
      }
      seen := seen + {cpu};
      rest := rest - {cpu};
    }
    assert seen == cpus;
    FlushLast(done, Range(rangeStart, rangeEnd), seen, result);
    result := Flushed(result, rangeStart, rangeEnd);
  }

  // ---- parsing ----

  datatype ParseError = BadRangeStart | BadRangeEnd | BadCpuId

  function ParsePart(part: string): Result<Range, ParseError> {
    var p := Trim(part);
    var dash := IndexOf(p, '-');
    if dash < |p| then
      match ParseU32(p[..dash])
      case None => Err(BadRangeStart)
      case Some(lo) =>
        match ParseU32(p[dash + 1..])
        case None => Err(BadRangeEnd)
        case Some(hi) => Ok(Range(lo, hi))
    else
      match ParseU32(p)
      case None => Err(BadCpuId)
      case Some(cpu) => Ok(Range(cpu, cpu))
  }

  function ParseParts(parts: seq<string>): (r: Result<seq<Range>, ParseError>)
    ensures r.Ok? ==> |r.value| == |parts|
  {
    if parts == [] then Ok([])
    else
      match ParsePart(parts[0])
      case Err(e) => Err(e)
      case Ok(range) =>
        match ParseParts(parts[1..])
        case Err(e) => Err(e)
        case Ok(more) => Ok([range] + more)
  }

  /** The set a text denotes: the union of its comma-separated parts, or the first error. */
  function Parse(s: string): Result<set<U32>, ParseError> {
    Union({}, ParseParts(Split(s, ',')))
  }

  function Union(cpus: set<U32>, rest: Result<seq<Range>, ParseError>): Result<set<U32>, ParseError> {
    match rest
    case Err(e) => Err(e)
    case Ok(rs) => Ok(cpus + Cover(rs))
  }

  lemma UnionStep(cpus: set<U32>, parts: seq<string>)
    requires parts != []
    ensures ParsePart(parts[0]).Err? ==> Union(cpus, ParseParts(parts)) == Err(ParsePart(parts[0]).error)
    ensures ParsePart(parts[0]).Ok? ==>
              Union(cpus, ParseParts(parts)) == Union(cpus + Members(ParsePart(parts[0]).value), ParseParts(parts[1..]))
  {
    if ParsePart(parts[0]).Ok? && ParseParts(parts[1..]).Ok? {
      var r, more := ParsePart(parts[0]).value, ParseParts(parts[1..]).value;
      assert ([r] + more)[1..] == more;
      assert cpus + Cover([r] + more) == cpus + Members(r) + Cover(more);
    }
  }

  method ParseCpulist(s: string) returns (r: Result<set<U32>, ParseError>)
    ensures r == Parse(s)
  {
    var cpus: set<U32> := {};
    var parts := Split(s, ',');
    var i := 0;
    while i < |parts|
      invariant i <= |parts|
      invariant Union(cpus, ParseParts(parts[i..])) == Parse(s)
    {
      assert parts[i..][0] == parts[i] && parts[i..][1..] == parts[i + 1..];
      UnionStep(cpus, parts[i..]);
      var range := ParsePart(parts[i]);
      if range.Err? {
        return Err(range.error);
      }
      cpus := cpus + Members(range.value);
      i := i + 1;
    }
    assert parts[i..] == [] && cpus + {} == cpus;
    r := Ok(cpus);
  }

  // ---- round trip ----

  function Texts(rs: seq<Range>): (t: seq<string>)
    ensures |t| == |rs|
  {
    if rs == [] then [] else [RangeText(rs[0])] + Texts(rs[1..])
  }

  lemma RangeTextHasNoComma(r: Range)
    ensures forall i :: 0 <= i < |RangeText(r)| ==> RangeText(r)[i] != ','
  {
  }

  lemma IndexOfSeparator(a: string, c: char, b: string)
    requires forall i :: 0 <= i < |a| ==> a[i] != c
    ensures IndexOf(a + [c] + b, c) == |a| && IndexOf(a, c) == |a|
    ensures (a + [c] + b)[..|a|] == a && (a + [c] + b)[|a| + 1..] == b
  {
    var s := a + [c] + b;
    var i := IndexOf(s, c);
    assert s[|a|] == c;
    assert forall k :: 0 <= k < |a| ==> s[k] == a[k];
  }

  lemma {:induction false} SplitRender(rs: seq<Range>)
    requires rs != []
    ensures Split(Render(rs), ',') == Texts(rs)
  {
    var head := RangeText(rs[0]);
    RangeTextHasNoComma(rs[0]);
    if |rs| == 1 {
      IndexOfSeparator(head, ',', "");
    } else {
      IndexOfSeparator(head, ',', Render(rs[1..]));
      assert Render(rs) == head + [','] + Render(rs[1..]);
      SplitRender(rs[1..]);
    }
  }

  lemma TrimKeeps(t: string)
    requires t != [] && IsDigit(t[0]) && IsDigit(t[|t| - 1])
    ensures Trim(t) == t
  {
  }

  lemma ParsePair(a: string, b: string, lo: U32, hi: U32)
    requires a != [] && b != [] && AllDigits(a) && AllDigits(b)
    requires ParseU32(a) == Some(lo) && ParseU32(b) == Some(hi)
    ensures ParsePart(a + "-" + b) == Ok(Range(lo, hi))
  {
    var t := a + ['-'] + b;
    IndexOfSeparator(a, '-', b);
    assert t[0] == a[0] && t[|t| - 1] == b[|b| - 1];
    TrimKeeps(t);
  }

  lemma ParseRangeText(r: Range)
    ensures ParsePart(RangeText(r)) == Ok(r)
  {
    var lo, hi := Decimal(r.lo), Decimal(r.hi);
    ParseDecimal(r.lo);
    ParseDecimal(r.hi);
    if r.lo == r.hi {
      TrimKeeps(lo);
      IndexOfSeparator(lo, '-', "");
    } else {
      ParsePair(lo, hi, r.lo, r.hi);
    }
  }

  lemma {:induction false} ParseTexts(rs: seq<Range>)
    ensures ParseParts(Texts(rs)) == Ok(rs)
  {
    if rs != [] {
      ParseRangeText(rs[0]);
      ParseTexts(rs[1..]);
      assert Texts(rs)[1..] == Texts(rs[1..]) && [rs[0]] + rs[1..] == rs;
    }
  }

  lemma EmptyTextIsRejected()
    ensures Parse("") == Err(BadCpuId)
  {
    var parts := Split("", ',');
    assert parts == [""] && Trim("") == "" && ParsePart("") == Err(BadCpuId);
  }

  /** Printing then parsing returns the set exactly when the set is not empty:
      the empty text is rejected. */
  lemma RoundTripExactlyWhen(cpus: set<U32>)
    ensures Parse(Format(cpus)) == Ok(cpus) <==> cpus != {}
  {
    var rs := Ranges(cpus);
    if cpus != {} {
      SplitRender(rs);
      ParseTexts(rs);
      assert {} + Cover(rs) == cpus;
    } else {
      EmptyTextIsRejected();
    }
  }

  // ---- minimality ----

  function Lows(rs: seq<Range>): set<U32> {
    if rs == [] then {} else {rs[0].lo} + Lows(rs[1..])
  }

  lemma {:induction false} InLows(rs: seq<Range>, x: U32)
    ensures x in Lows(rs) <==> exists i :: 0 <= i < |rs| && rs[i].lo == x
  {
    if rs != [] {
      InLows(rs[1..], x);
      if i :| 0 <= i < |rs| && rs[i].lo == x {
        if i > 0 {
          assert rs[1..][i - 1] == rs[i];
        }
      }
    }
  }

  lemma {:induction false} LowsSize(rs: seq<Range>)
    ensures |Lows(rs)| <= |rs|
    ensures Canonical(rs) ==> |Lows(rs)| == |rs|
  {
    if rs != [] {
      LowsSize(rs[1..]);
      InLows(rs[1..], rs[0].lo);
      assert Lows(rs) - {rs[0].lo} <= Lows(rs[1..]) <= Lows(rs);
    }
  }

  lemma CanonicalLowIsStart(rs: seq<Range>, i: nat)
    requires Canonical(rs) && i < |rs|
    ensures rs[i].lo in Cover(rs) && (rs[i].lo > 0 ==> rs[i].lo - 1 !in Cover(rs))
  {
    InCover(rs, rs[i].lo);
    if rs[i].lo > 0 {
      InCover(rs, rs[i].lo - 1);
    }
  }

  lemma StartsAreLows(rs: seq<Range>, x: U32)
    requires x in Cover(rs) && (x > 0 ==> x - 1 !in Cover(rs))
    ensures x in Lows(rs)
  {
    InCover(rs, x);
    InLows(rs, x);
    var i :| 0 <= i < |rs| && rs[i].lo <= x <= rs[i].hi;
    if rs[i].lo < x {
      InCover(rs, x - 1);
    }
  }

  lemma FewestRanges(best: seq<Range>, rs: seq<Range>)
    requires Canonical(best) && Cover(best) == Cover(rs)
    ensures |best| <= |rs|
  {
    LowsSize(best);
    LowsSize(rs);
    forall x | x in Lows(best) ensures x in Lows(rs) { LowIsLow(best, rs, x); }
    SubsetNotLarger(Lows(best), Lows(rs));
  }

  lemma LowIsLow(best: seq<Range>, rs: seq<Range>, x: U32)
    requires Canonical(best) && Cover(best) == Cover(rs) && x in Lows(best)
    ensures x in Lows(rs)
  {
    InLows(best, x);
    var i :| 0 <= i < |best| && best[i].lo == x;
    CanonicalLowIsStart(best, i);
    StartsAreLows(rs, x);
  }

  /** No text that parses to the same set has fewer comma-separated parts. */
  lemma FewestParts(text: string, cpus: set<U32>)
    requires cpus != {} && Parse(text) == Ok(cpus)
    ensures |Split(Format(cpus), ',')| <= |Split(text, ',')|
  {
    var rs := ParseParts(Split(text, ',')).value;
    assert {} + Cover(rs) == Cover(rs);
    SplitRender(Ranges(cpus));
    FewestRanges(Ranges(cpus), rs);
  }

  lemma SubsetNotLarger(a: set<U32>, b: set<U32>)
    requires a <= b
    ensures |a| <= |b|
  {
    assert |b| == |a| + |b - a|;
  }

  /** The printed ranges, as read back, ascend with gaps: text in, canonical text out. */
  lemma FormatIsCanonical(cpus: set<U32>)
    requires cpus != {}
    ensures var parts := ParseParts(Split(Format(cpus), ','));
            parts.Ok? && Canonical(parts.value) && Cover(parts.value) == cpus
  {
    SplitRender(Ranges(cpus));
    ParseTexts(Ranges(cpus));
  }
}
