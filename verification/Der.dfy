/** Splitting two concatenated DER certificates by reading the first length field.
    The arithmetic is that of a 64-bit target built without overflow checks. */
module Der {
  import opened Wrappers
  import opened Words
  import opened Bytes

  datatype DerError = TooShort | Indefinite | LengthExceedsData | OnlyOneObject

  /** The length an encoding announces for the whole object, over unbounded integers:
      sections 8.1.3.4 and 8.1.3.5 of ITU-T X.690 for a one-byte tag. */
  function AnnouncedLength(data: seq<Byte>): Result<nat, DerError> {
    if |data| < 2 then Err(TooShort)
    else if data[1] < 0x80 then Ok(2 + data[1])
    else
      var n := data[1] - 0x80;
      if n == 0 then Err(Indefinite)
      else if 2 + n > |data| then Err(TooShort)
      else Ok(2 + n + BigEndian(data[2..2 + n]))
  }

  /** The split the function promises: cut after the announced first object. */
  function IdealSplit(data: seq<Byte>): Result<(seq<Byte>, seq<Byte>), DerError> {
    match AnnouncedLength(data)
    case Err(e) => Err(e)
    case Ok(n) =>
      if n > |data| then Err(LengthExceedsData)
      else if n == |data| then Err(OnlyOneObject)
      else Ok((data[..n], data[n..]))
  }

  /** What the code computes: the same cut, with the length reduced modulo 2^64. */
  function SplitDer(data: seq<Byte>): Result<(seq<Byte>, seq<Byte>), DerError> {
    match AnnouncedLength(data)
    case Err(e) => Err(e)
    case Ok(exact) =>
      var n := exact % TWO64;
      if n > |data| then Err(LengthExceedsData)
      else if n == |data| then Err(OnlyOneObject)
      else Ok((data[..n], data[n..]))
  }

  /** One shift-and-or step drops high bits exactly as reduction modulo 2^64 does:
      the low eight bits of the shifted word are zero, so the or is an addition. */
  lemma ShiftOrIsModular(x: nat, b: Byte)
    ensures (x % TWO64 * 256) % TWO64 + b == (x * 256 + b) % TWO64
  {
    var q, r := x / TWO64, x % TWO64;
    var q', r' := r * 256 / TWO64, r * 256 % TWO64;
    assert x * 256 == TWO64 * (q * 256 + q') + r';
    assert r' == 256 * (r - q' * 0x100_0000_0000_0000);
    ModuloOf(x * 256 + b, q * 256 + q', r' + b);
  }

  lemma ModuloOf(x: nat, q: nat, r: nat)
    requires x == TWO64 * q + r && r < TWO64
    ensures x % TWO64 == r
  {
  }

  lemma AddModulo(a: nat, b: nat)
    ensures (a + b % TWO64) % TWO64 == (a + b) % TWO64
  {
    var q := b / TWO64;
    var t := a + b % TWO64;
    ModuloOf(a + b, q + t / TWO64, t % TWO64);
  }

  method DerObjectLength(data: seq<Byte>) returns (r: Result<nat, DerError>)
    ensures AnnouncedLength(data).Err? ==> r == AnnouncedLength(data)
    ensures AnnouncedLength(data).Ok? ==> r == Ok(AnnouncedLength(data).value % TWO64)
  {
    if |data| < 2 {
      return Err(TooShort);
    }
    var lengthByte := data[1];
    if lengthByte < 0x80 {
      return Ok(2 + lengthByte);
    }
    var n := lengthByte - 0x80;
    if n == 0 {
      return Err(Indefinite);
    }
    if 2 + n > |data| {
      return Err(TooShort);
    }
    var contentLen: nat := 0;
    for i := 0 to n
      invariant contentLen == BigEndian(data[2..2 + i]) % TWO64
    {
      ghost var sofar := data[2..2 + i + 1];
      assert sofar[..|sofar| - 1] == data[2..2 + i];
      ShiftOrIsModular(BigEndian(data[2..2 + i]), data[2 + i]);
      contentLen := (contentLen * 256) % TWO64 + data[2 + i];
    }
    AddModulo(2 + n, BigEndian(data[2..2 + n]));
    r := Ok((2 + n + contentLen) % TWO64);
  }

  method SplitDerCerts(data: seq<Byte>) returns (r: Result<(seq<Byte>, seq<Byte>), DerError>)
    ensures r == SplitDer(data)
  {
    if |data| < 2 {
      return Err(TooShort);
    }
    var firstLen := DerObjectLength(data);
    if firstLen.Err? {
      return Err(firstLen.error);
    }
    if firstLen.value > |data| {
      return Err(LengthExceedsData);
    }
    var first := data[..firstLen.value];
    var second := data[firstLen.value..];
    if second == [] {
      return Err(OnlyOneObject);
    }
    r := Ok((first, second));
  }

  // ---- the encoding, written from the standard ----

  /** The k digits of n to base 256, most significant first. */
  function Digits(n: nat, k: nat): (digits: seq<Byte>)
    ensures |digits| == k
  {
    if k == 0 then [] else Digits(n / 256, k - 1) + [n % 256]
  }

  /** The short form, or the long form with k length bytes, which may have leading zeros. The
      standard keeps k = 127 free; the code reads it like any other. */
  datatype Form = Short | Long(k: nat)

  predicate Fits(form: Form, length: nat) {
    match form
    case Short => length < 128
    case Long(k) => 1 <= k <= 127 && length < Pow256(k)
  }

  /** Sections 8.1.3.4 and 8.1.3.5 of ITU-T X.690: one tag byte, the length, the content. */
  function Encode(tag: Byte, form: Form, content: seq<Byte>): seq<Byte>
    requires Fits(form, |content|)
  {
    match form
    case Short => [tag, |content|] + content
    case Long(k) => [tag, 0x80 + k] + Digits(|content|, k) + content
  }

  /** A complete definite-length object with a one-byte tag (section 10.1 of ITU-T X.690
      further asks for the shortest length form, which is not needed here). */
  ghost predicate IsObject(a: seq<Byte>) {
    exists tag, form, content: seq<Byte> :: Fits(form, |content|) && a == Encode(tag, form, content)
  }

  lemma {:induction false} DigitsRead(n: nat, k: nat)
    requires n < Pow256(k)
    ensures BigEndian(Digits(n, k)) == n
  {
    if k > 0 {
      var digits := Digits(n, k);
      DigitsRead(n / 256, k - 1);
      assert digits[..k - 1] == Digits(n / 256, k - 1);
    }
  }

  lemma {:induction false} ReadDigits(bytes: seq<Byte>)
    ensures Digits(BigEndian(bytes), |bytes|) == bytes
  {
    if bytes != [] {
      ReadDigits(bytes[..|bytes| - 1]);
      assert bytes == bytes[..|bytes| - 1] + [bytes[|bytes| - 1]];
    }
  }

  /** The length read from an encoded object is the object's own, whatever the form of its
      length and whatever follows it. */
  lemma EncodedLengthIsRead(tag: Byte, form: Form, content: seq<Byte>, rest: seq<Byte>)
    requires Fits(form, |content|)
    ensures AnnouncedLength(Encode(tag, form, content) + rest) == Ok(|Encode(tag, form, content)|)
  {
    if form.Long? { LongLengthIsRead(tag, form.k, content, rest); }
  }

  lemma LongLengthIsRead(tag: Byte, k: nat, content: seq<Byte>, rest: seq<Byte>)
    requires Fits(Long(k), |content|)
    ensures AnnouncedLength(Encode(tag, Long(k), content) + rest) == Ok(2 + k + |content|)
  {
    var data, digits := Encode(tag, Long(k), content) + rest, Digits(|content|, k);
    DigitsRead(|content|, k);
    Middle([tag, 0x80 + k], digits, content, rest);
    assert data[1] == 0x80 + k && data[2..2 + k] == digits;
  }

  lemma Middle(a: seq<Byte>, b: seq<Byte>, c: seq<Byte>, d: seq<Byte>)
    ensures (a + b + c + d)[|a|..|a| + |b|] == b
  {
  }

  /** Anything that announces its own length is an encoded object. */
  lemma AnnouncedIsObject(a: seq<Byte>)
    requires AnnouncedLength(a) == Ok(|a|)
    ensures IsObject(a)
  {
    if a[1] < 0x80 {
      assert a == Encode(a[0], Short, a[2..]);
    } else {
      LongIsObject(a, a[1] - 0x80);
    }
  }

  lemma LongIsObject(a: seq<Byte>, k: nat)
    requires |a| >= 2 + k && 1 <= k <= 127 && a[1] == 0x80 + k && 2 + k + BigEndian(a[2..2 + k]) == |a|
    ensures IsObject(a)
  {
    var digits, content := a[2..2 + k], a[2 + k..];
    ReadDigits(digits);
    BigEndianBelow(digits);
    ThreeParts(a, k);
    assert Fits(Long(k), |content|) && a == Encode(a[0], Long(k), content);
  }

  lemma ThreeParts(a: seq<Byte>, k: nat)
    requires |a| >= 2 + k
    ensures a == [a[0], a[1]] + a[2..2 + k] + a[2 + k..]
  {
  }

  /** Two encoded objects one after the other are split into exactly the two. */
  lemma SplitOfEncodings(t1: Byte, f1: Form, c1: seq<Byte>, t2: Byte, f2: Form, c2: seq<Byte>)
    requires Fits(f1, |c1|) && Fits(f2, |c2|)
    requires |Encode(t1, f1, c1) + Encode(t2, f2, c2)| < TWO64
    ensures SplitDer(Encode(t1, f1, c1) + Encode(t2, f2, c2)) == Ok((Encode(t1, f1, c1), Encode(t2, f2, c2)))
  {
    SplitOfConcatenation(Encode(t1, f1, c1), Encode(t2, f2, c2));
  }

  /** Any object followed by anything non-empty that fits in memory is split back exactly. */
  lemma SplitOfConcatenation(a: seq<Byte>, b: seq<Byte>)
    requires IsObject(a) && b != [] && |a + b| < TWO64
    ensures SplitDer(a + b) == Ok((a, b))
  {
    var tag, form, content: seq<Byte> :| Fits(form, |content|) && a == Encode(tag, form, content);
    EncodedLengthIsRead(tag, form, content, b);
    CutAfter(a, b);
  }

  lemma CutAfter(a: seq<Byte>, b: seq<Byte>)
    requires b != [] && |a + b| < TWO64 && AnnouncedLength(a + b) == Ok(|a|)
    ensures SplitDer(a + b) == Ok((a, b))
  {
    ModuloOf(|a|, 0, |a|);
    assert (a + b)[..|a|] == a && (a + b)[|a|..] == b;
  }

  /** Nothing is lost or invented, and a successful split of an unwrapped length
      yields a complete first object. */
  lemma SplitLosesNothing(data: seq<Byte>)
    requires SplitDer(data).Ok?
    ensures var (first, second) := SplitDer(data).value;
            first + second == data && second != []
            && (AnnouncedLength(data).value < TWO64 ==> IsObject(first))
  {
    var (first, second) := SplitDer(data).value;
    var n := AnnouncedLength(data).value;
    if n < TWO64 && data[1] >= 0x80 {
      assert first[2..2 + (data[1] - 0x80)] == data[2..2 + (data[1] - 0x80)];
    }
    if n < TWO64 { AnnouncedIsObject(first); }
  }

  /** The code meets the promised split exactly when the announced length fits 64 bits
      or still overshoots the data after it has wrapped. */
  lemma SplitIsIdealExactlyWhen(data: seq<Byte>)
    requires |data| < TWO64
    ensures SplitDer(data) == IdealSplit(data)
            <==> AnnouncedLength(data).Err?
                 || AnnouncedLength(data).value < TWO64
                 || AnnouncedLength(data).value % TWO64 > |data|
  {
  }

  /** Fourteen bytes that announce 2^64 + 9 bytes of object and are split after byte 9. */
  lemma WrappedLengthIsAccepted()
    ensures var ff: Byte := 0xFF;
            var data := [0x30, 0x88, ff, ff, ff, ff, ff, ff, ff, ff, 1, 2, 3, 4];
            IdealSplit(data) == Err(LengthExceedsData) && SplitDer(data) == Ok((data[..9], data[9..]))
  {
    var ff: Byte := 0xFF;
    var data: seq<Byte> := [0x30, 0x88, ff, ff, ff, ff, ff, ff, ff, ff, 1, 2, 3, 4];
    var len := data[2..10];
    AllOnes(len);
    assert AnnouncedLength(data) == Ok(10 + (TWO64 - 1));
  }

  lemma AllOnes(len: seq<Byte>)
    requires len == [0xFF, 0xFF, 0xFF, 0xFF, 0xFF, 0xFF, 0xFF, 0xFF]
    ensures BigEndian(len) == TWO64 - 1
  {
    assert len[..7][..6] == len[..6] && len[..6][..5] == len[..5] && len[..5][..4] == len[..4];
    assert len[..4][..3] == len[..3] && len[..3][..2] == len[..2] && len[..2][..1] == len[..1];
    assert BigEndian(len[..1]) == 0xFF;
    assert BigEndian(len[..2]) == 0xFFFF;
    assert BigEndian(len[..4]) == 0xFFFF_FFFF;
    assert BigEndian(len[..6]) == 0xFFFF_FFFF_FFFF;
  }
}
