/** IPv4 addresses of VMs: gateway plus an 8-bit offset, and the MAC derived from it. */
module Ipv4 {
  import opened Words

  type Addr = a: int | 0 <= a < 0x1_0000_0000
  type Offset = o: int | 0 <= o < 256

  function LastOctet(ip: Addr): Offset { ip % 256 }

  /** The gateway address plus the offset, wrapping at 2^32. */
  function AllocateVmIp(gateway: Addr, offset: Offset): Addr {
    (gateway + offset) % TWO32
  }

  /** What deletion and recovery compute: the difference of the last octets, wrapping at 256. */
  function OffsetOf(gateway: Addr, ip: Addr): Offset {
    (LastOctet(ip) - LastOctet(gateway)) % 256
  }

  function HexDigit(d: nat): char
    requires d < 16
  {
    "0123456789abcdef"[d]
  }

  function Hex2(octet: Offset): (s: string)
    ensures |s| == 2
  {
    [HexDigit(octet / 16), HexDigit(octet % 16)]
  }

  function MacForVmIp(ip: Addr): (s: string)
    ensures |s| == 17
  {
    "52:54:00:" + Hex2(ip / 0x1_0000 % 256) + ":" + Hex2(ip / 256 % 256) + ":" + Hex2(ip % 256)
  }

  /** The offset chosen at creation is the one deletion and recovery name, even when the
      addition carries into higher octets or wraps. */
  lemma OffsetRecovered(gateway: Addr, offset: Offset)
    ensures OffsetOf(gateway, AllocateVmIp(gateway, offset)) == offset
  {
    var sum := gateway + offset;
    ModShift(sum, sum % TWO32, sum / TWO32 * 0x100_0000);
    ModShift(sum % 256 - gateway % 256, offset, gateway / 256 - sum / 256);
  }

  lemma ModShift(x: int, y: int, k: int)
    requires x == y + 256 * k
    ensures x % 256 == y % 256
  {
  }

  lemma HexDigitInjective(a: nat, b: nat)
    requires a < 16 && b < 16 && HexDigit(a) == HexDigit(b)
    ensures a == b
  {
    var digits := "0123456789abcdef";
    assert digits[a] == digits[b];
  }

  lemma Hex2Injective(a: Offset, b: Offset)
    requires Hex2(a) == Hex2(b)
    ensures a == b
  {
    assert Hex2(a)[0] == Hex2(b)[0] && Hex2(a)[1] == Hex2(b)[1];
    HexDigitInjective(a / 16, b / 16);
    HexDigitInjective(a % 16, b % 16);
  }

  /** Value of a lower-case hex digit. */
  function HexValue(c: char): int { if c <= '9' then c as int - '0' as int else c as int - 'a' as int + 10 }

  lemma HexDigitRead(d: nat)
    requires d < 16
    ensures HexValue(HexDigit(d)) == d && HexDigit(d) != ','
  {
    var digits := "0123456789abcdef";
    assert forall i :: 0 <= i < 16 ==> HexValue(digits[i]) == i && digits[i] != ',';
  }

  lemma Hex2Read(octet: Offset)
    ensures HexValue(Hex2(octet)[0]) * 16 + HexValue(Hex2(octet)[1]) == octet && ',' !in Hex2(octet)
  {
    HexDigitRead(octet / 16);
    HexDigitRead(octet % 16);
  }

  /** The MAC is 52:54:00 and the last three octets of the address in hex. */
  lemma MacSpellsOctets(ip: Addr)
    ensures var m := MacForVmIp(ip);
            && m[..9] == "52:54:00:" && m[11] == ':' && m[14] == ':' && ',' !in m
            && ip % 0x100_0000
               == (HexValue(m[9]) * 16 + HexValue(m[10])) * 0x1_0000
                  + (HexValue(m[12]) * 16 + HexValue(m[13])) * 256 + HexValue(m[15]) * 16 + HexValue(m[16])
  {
    var a, b, c := Hex2(ip / 0x1_0000 % 256), Hex2(ip / 256 % 256), Hex2(ip % 256);
    var m := MacForVmIp(ip);
    Hex2Read(ip / 0x1_0000 % 256);
    Hex2Read(ip / 256 % 256);
    Hex2Read(ip % 256);
    LowOctets(ip);
    assert ',' !in "52:54:00:";
    assert m[9] == a[0] && m[10] == a[1] && m[12] == b[0] && m[13] == b[1] && m[15] == c[0] && m[16] == c[1];
  }

  lemma MacOctets(a: Addr, b: Addr)
    requires MacForVmIp(a) == MacForVmIp(b)
    ensures a / 0x1_0000 % 256 == b / 0x1_0000 % 256
    ensures a / 256 % 256 == b / 256 % 256
    ensures LastOctet(a) == LastOctet(b)
  {
    var m, n := MacForVmIp(a), MacForVmIp(b);
    assert m[9..11] == Hex2(a / 0x1_0000 % 256) && n[9..11] == Hex2(b / 0x1_0000 % 256);
    assert m[12..14] == Hex2(a / 256 % 256) && n[12..14] == Hex2(b / 256 % 256);
    assert m[15..17] == Hex2(LastOctet(a)) && n[15..17] == Hex2(LastOctet(b));
    Hex2Injective(a / 0x1_0000 % 256, b / 0x1_0000 % 256);
    Hex2Injective(a / 256 % 256, b / 256 % 256);
    Hex2Injective(LastOctet(a), LastOctet(b));
  }

  lemma LowOctets(a: Addr)
    ensures var m := a % 0x100_0000;
            m == (a / 0x1_0000 % 256) * 0x1_0000 + (a / 256 % 256) * 256 + a % 256
  {
    var hi, mid := a / 0x1_0000, a / 256;
    assert a == mid * 256 + a % 256 && mid == hi * 256 + mid % 256;
    assert hi == (a / 0x100_0000) * 256 + hi % 256;
  }

  lemma OctetsDetermined(a: Addr, b: Addr)
    requires a % 0x100_0000 == b % 0x100_0000
    ensures a / 0x1_0000 % 256 == b / 0x1_0000 % 256 && a / 256 % 256 == b / 256 % 256 && a % 256 == b % 256
  {
    LowOctets(a);
    LowOctets(b);
  }

  /** Two MACs coincide exactly when the addresses agree on their last three octets. */
  lemma MacCollidesExactlyWhen(a: Addr, b: Addr)
    ensures MacForVmIp(a) == MacForVmIp(b) <==> a % 0x100_0000 == b % 0x100_0000
  {
    if MacForVmIp(a) == MacForVmIp(b) {
      MacOctets(a, b);
      LowOctets(a);
      LowOctets(b);
    } else if a % 0x100_0000 == b % 0x100_0000 {
      OctetsDetermined(a, b);
    }
  }

  /** Distinct offsets of one gateway give distinct addresses and distinct MACs. */
  lemma DistinctOffsets(gateway: Addr, o1: Offset, o2: Offset)
    requires o1 != o2
    ensures AllocateVmIp(gateway, o1) != AllocateVmIp(gateway, o2)
    ensures MacForVmIp(AllocateVmIp(gateway, o1)) != MacForVmIp(AllocateVmIp(gateway, o2))
  {
    OffsetRecovered(gateway, o1);
    OffsetRecovered(gateway, o2);
    var a, b := AllocateVmIp(gateway, o1), AllocateVmIp(gateway, o2);
    if MacForVmIp(a) == MacForVmIp(b) {
      MacOctets(a, b);
    }
  }
}
