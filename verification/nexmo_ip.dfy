/**
 The source-address check of the Nexmo client library (`gonexmo` `ip.go`): an
 address is trusted when it lies in one of the four IPv4 blocks Nexmo sends
 its callbacks from. Only dotted-quad IPv4 text is modelled.
 */
module NexmoIp {
  import opened Wrappers
  import Text
  import Decimal

  /** One field of a dotted quad: digits only, no leading zero, at most 255. */
  function ParseOctet(s: string): (r: Option<nat>)
    ensures r.Some? <==> |s| > 0 && Decimal.AllDigits(s) && (|s| > 1 ==> s[0] != '0') && Decimal.Value(s) <= 255
    ensures r.Some? ==> r.value == Decimal.Value(s) && r.value <= 255
  {
    if |s| == 0 || !Decimal.AllDigits(s) || (|s| > 1 && s[0] == '0') then None
    else if Decimal.Value(s) > 255 then None
    else Some(Decimal.Value(s))
  }

  /** The 32-bit number of the address `a.b.c.d`. */
  function Address(a: nat, b: nat, c: nat, d: nat): (r: nat)
    requires a <= 255 && b <= 255 && c <= 255 && d <= 255
    ensures r < 0x1_0000_0000
  {
    a * 0x100_0000 + b * 0x1_0000 + c * 0x100 + d
  }

  /** The dotted-quad text of `a.b.c.d`. */
  function Quad(a: nat, b: nat, c: nat, d: nat): string
  {
    Decimal.FormatNat(a) + "." + Decimal.FormatNat(b) + "." + Decimal.FormatNat(c) + "." + Decimal.FormatNat(d)
  }

  /**
   `net.ParseIP` restricted to IPv4 text: exactly four dot-separated fields,
   each a valid octet; the result is the address as a number.
   */
  function ParseIPv4(s: string): (r: Option<nat>)
    ensures r.Some? ==> r.value < 0x1_0000_0000
    ensures r.Some? ==> Text.Count(s, '.') == 3
  {
    var f := Text.Split(s, '.');
    if |f| != 4 then None
    else
      match (ParseOctet(f[0]), ParseOctet(f[1]), ParseOctet(f[2]), ParseOctet(f[3]))
      case (Some(a), Some(b), Some(c), Some(d)) => Some(Address(a, b, c, d))
      case _ => None
  }

  /** Decimal text has no dot in it. */
  lemma DigitsHaveNoDot(s: string)
    requires Decimal.AllDigits(s)
    ensures '.' !in s
  {
  }

  /** Parsing the text of a quad gives back its address. */
  lemma ParseQuad(a: nat, b: nat, c: nat, d: nat)
    requires a <= 255 && b <= 255 && c <= 255 && d <= 255
    ensures ParseIPv4(Quad(a, b, c, d)) == Some(Address(a, b, c, d))
  {
    var parts := [Decimal.FormatNat(a), Decimal.FormatNat(b), Decimal.FormatNat(c), Decimal.FormatNat(d)];
    DigitsHaveNoDot(parts[0]);
    DigitsHaveNoDot(parts[1]);
    DigitsHaveNoDot(parts[2]);
    DigitsHaveNoDot(parts[3]);
    assert Text.Free(parts, '.');
    assert parts[1..][1..][1..] == [parts[3]];
    assert parts[1..][1..] == [parts[2], parts[3]];
    assert parts[1..] == [parts[1], parts[2], parts[3]];
    assert Text.Join(parts[1..][1..], ".") == parts[2] + "." + parts[3];
    assert Text.Join(parts[1..], ".") == parts[1] + "." + Text.Join(parts[1..][1..], ".");
    assert Text.Join(parts, ".") == Quad(a, b, c, d);
    Text.SplitJoin(parts, '.');
  }

  /** A CIDR block: the network address and the prefix length. */
  datatype Block = Block(base: nat, prefix: nat)

  /** The number of addresses a block holds. */
  function Size(b: Block): (r: nat)
    requires b.prefix <= 32
    ensures r >= 1
  {
    Decimal.Pow2(32 - b.prefix)
  }

  /** `IPNet.Contains` for IPv4: the address agrees with the base on the prefix bits. */
  predicate Contains(b: Block, ip: nat)
    requires b.prefix <= 32
  {
    ip / Size(b) == b.base / Size(b)
  }

  /** The base is the network address itself (its host bits are zero). */
  predicate Aligned(b: Block)
    requires b.prefix <= 32
  {
    b.base % Size(b) == 0
  }

  /** Multiplying by a natural number keeps the order. */
  lemma {:induction false} MulMonotone(a: nat, b: nat, n: nat)
    requires a <= b
    ensures a * n <= b * n
    decreases b - a
  {
    if a < b {
      MulMonotone(a, b - 1, n);
      assert b * n == (b - 1) * n + n;
    }
  }

  /** Quotient `k` by `n` is exactly the range `[k*n, k*n + n)`. */
  lemma DivRange(x: nat, k: nat, n: nat)
    requires n > 0
    ensures x / n == k <==> k * n <= x < k * n + n
  {
    var q := x / n;
    assert x == q * n + x % n && 0 <= x % n < n;
    if q < k {
      MulMonotone(q + 1, k, n);
      assert (q + 1) * n == q * n + n;
    } else if q > k {
      MulMonotone(k + 1, q, n);
      assert (k + 1) * n == k * n + n;
    }
  }

  /** An aligned block contains exactly the addresses from its base up to, not including, base plus size. */
  lemma ContainsRange(b: Block, ip: nat)
    requires b.prefix <= 32 && Aligned(b)
    ensures Contains(b, ip) <==> b.base <= ip < b.base + Size(b)
  {
    var n := Size(b);
    var k := b.base / n;
    assert k * n == b.base;
    DivRange(ip, k, n);
  }

  /** The four blocks Nexmo's callbacks come from. */
  const Blocks: seq<Block> := [
    Block(Address(174, 37, 245, 32), 29),
    Block(Address(174, 36, 197, 192), 28),
    Block(Address(173, 193, 199, 16), 28),
    Block(Address(119, 81, 44, 0), 28)
  ]

  /** Whether some block from `i` on contains the address. */
  predicate InSomeBlock(ip: nat, i: nat)
    requires i <= |Blocks|
    decreases |Blocks| - i
  {
    i < |Blocks| && (Contains(Blocks[i], ip) || InSomeBlock(ip, i + 1))
  }

  /** `IsTrustedIP`: the text is an address and the scan over the blocks finds one containing it. */
  function IsTrustedIP(s: string): (r: bool)
    ensures r ==> ParseIPv4(s).Some?
  {
    ParseIPv4(s).Some? && InSomeBlock(ParseIPv4(s).value, 0)
  }

  /** A text is trusted exactly when it is an address that one of the blocks contains. */
  lemma TrustedIffSomeBlock(s: string)
    ensures IsTrustedIP(s) <==> ParseIPv4(s).Some? && exists i :: 0 <= i < |Blocks| && Contains(Blocks[i], ParseIPv4(s).value)
  {
    if ParseIPv4(s).Some? {
      InSomeBlockAny(ParseIPv4(s).value, 0);
    }
  }

  /** The scan from `i` finds a block exactly when one at `i` or later contains the address. */
  lemma {:induction false} InSomeBlockAny(ip: nat, i: nat)
    requires i <= |Blocks|
    ensures InSomeBlock(ip, i) <==> exists j :: i <= j < |Blocks| && Contains(Blocks[j], ip)
    decreases |Blocks| - i
  {
    if i < |Blocks| {
      InSomeBlockAny(ip, i + 1);
    }
  }

  /** Every listed block is already a network address, so membership is a range check. */
  lemma BlocksAligned()
    ensures forall i :: 0 <= i < |Blocks| ==> Blocks[i].prefix <= 32 && Aligned(Blocks[i])
    ensures Size(Blocks[0]) == 8 && Size(Blocks[1]) == 16 && Size(Blocks[2]) == 16 && Size(Blocks[3]) == 16
  {
    assert Decimal.Pow2(3) == 8;
    assert Decimal.Pow2(4) == 16;
  }

  /**
   A range that stays inside one last octet holds exactly the quads that agree
   with its base on the first three octets.
   */
  lemma QuadInRange(a: nat, b: nat, c: nat, d: nat, a0: nat, b0: nat, c0: nat, d0: nat, n: nat)
    requires a <= 255 && b <= 255 && c <= 255 && d <= 255
    requires a0 <= 255 && b0 <= 255 && c0 <= 255 && d0 <= 255 && d0 + n <= 256
    ensures Address(a0, b0, c0, d0) <= Address(a, b, c, d) < Address(a0, b0, c0, d0) + n <==>
              a == a0 && b == b0 && c == c0 && d0 <= d < d0 + n
  {
    var hi := a * 0x1_0000 + b * 0x100 + c;
    var hi0 := a0 * 0x1_0000 + b0 * 0x100 + c0;
    assert Address(a, b, c, d) == hi * 0x100 + d;
    assert Address(a0, b0, c0, d0) == hi0 * 0x100 + d0;
    if hi < hi0 {
      assert hi * 0x100 + 0x100 <= hi0 * 0x100;
    } else if hi > hi0 {
      assert hi0 * 0x100 + 0x100 <= hi * 0x100;
    } else {
      assert a == a0 && b == b0 && c == c0;
    }
  }

  /** The addresses the library trusts are exactly those in the four ranges. */
  lemma TrustedRanges(a: nat, b: nat, c: nat, d: nat)
    requires a <= 255 && b <= 255 && c <= 255 && d <= 255
    ensures IsTrustedIP(Quad(a, b, c, d)) <==>
              (a == 174 && b == 37 && c == 245 && 32 <= d < 40) ||
              (a == 174 && b == 36 && c == 197 && 192 <= d < 208) ||
              (a == 173 && b == 193 && c == 199 && 16 <= d < 32) ||
              (a == 119 && b == 81 && c == 44 && d < 16)
  {
    ParseQuad(a, b, c, d);
    TrustedIffSomeBlock(Quad(a, b, c, d));
    var ip := Address(a, b, c, d);
    SomeBlockIsOneOfFour(ip);
    BlocksAligned();
    BlockHolds(a, b, c, d, 0, 174, 37, 245, 32, 8);
    BlockHolds(a, b, c, d, 1, 174, 36, 197, 192, 16);
    BlockHolds(a, b, c, d, 2, 173, 193, 199, 16, 16);
    BlockHolds(a, b, c, d, 3, 119, 81, 44, 0, 16);
  }

  /** Some block contains an address exactly when one of the four, named one by one, does. */
  lemma SomeBlockIsOneOfFour(ip: nat)
    ensures (exists i :: 0 <= i < |Blocks| && Contains(Blocks[i], ip)) <==>
              Contains(Blocks[0], ip) || Contains(Blocks[1], ip) || Contains(Blocks[2], ip) || Contains(Blocks[3], ip)
  {
    if exists i :: 0 <= i < |Blocks| && Contains(Blocks[i], ip) {
      var i :| 0 <= i < |Blocks| && Contains(Blocks[i], ip);
      assert i == 0 || i == 1 || i == 2 || i == 3;
    }
  }

  /** The block at `i`, based at `a0.b0.c0.d0` and `n` addresses long, holds exactly the quads of its last-octet range. */
  lemma BlockHolds(a: nat, b: nat, c: nat, d: nat, i: nat, a0: nat, b0: nat, c0: nat, d0: nat, n: nat)
    requires a <= 255 && b <= 255 && c <= 255 && d <= 255
    requires a0 <= 255 && b0 <= 255 && c0 <= 255 && d0 <= 255 && d0 + n <= 256
    requires i < |Blocks| && Blocks[i].base == Address(a0, b0, c0, d0) && Blocks[i].prefix <= 32 && Size(Blocks[i]) == n
    ensures Contains(Blocks[i], Address(a, b, c, d)) <==> a == a0 && b == b0 && c == c0 && d0 <= d < d0 + n
  {
    BlocksAligned();
    ContainsRange(Blocks[i], Address(a, b, c, d));
    QuadInRange(a, b, c, d, a0, b0, c0, d0, n);
  }

  /** The decimal text of a two-digit number. */
  lemma Digits2(n: nat, s: string)
    requires 10 <= n < 100 && s == [Decimal.DigitChar(n / 10), Decimal.DigitChar(n % 10)]
    ensures Decimal.FormatNat(n) == s
  {
    assert Decimal.FormatNat(n / 10) == [Decimal.DigitChar(n / 10)];
  }

  /** The decimal text of a three-digit number. */
  lemma Digits3(n: nat, s: string)
    requires 100 <= n < 1000
    requires s == [Decimal.DigitChar(n / 100), Decimal.DigitChar(n / 10 % 10), Decimal.DigitChar(n % 10)]
    ensures Decimal.FormatNat(n) == s
  {
    Digits2(n / 10, s[..2]);
    assert n / 10 / 10 == n / 100;
  }

  /** The decimal text of a number below 1000, digit by digit. */
  lemma Digits(n: nat, s: string)
    requires n < 1000
    requires n < 10 ==> s == [Decimal.DigitChar(n)]
    requires 10 <= n < 100 ==> s == [Decimal.DigitChar(n / 10), Decimal.DigitChar(n % 10)]
    requires 100 <= n ==> s == [Decimal.DigitChar(n / 100), Decimal.DigitChar(n / 10 % 10), Decimal.DigitChar(n % 10)]
    ensures Decimal.FormatNat(n) == s
  {
    if n >= 100 {
      Digits3(n, s);
    } else if n >= 10 {
      Digits2(n, s);
    }
  }

  /** Whether a quad is trusted, for any text equal to it. */
  lemma QuadVerdict(a: nat, b: nat, c: nat, d: nat, s: string, trusted: bool)
    requires a <= 255 && b <= 255 && c <= 255 && d <= 255
    requires s == Quad(a, b, c, d)
    requires trusted <==>
              (a == 174 && b == 37 && c == 245 && 32 <= d < 40) ||
              (a == 174 && b == 36 && c == 197 && 192 <= d < 208) ||
              (a == 173 && b == 193 && c == 199 && 16 <= d < 32) ||
              (a == 119 && b == 81 && c == 44 && d < 16)
    ensures IsTrustedIP(s) == trusted
  {
    TrustedRanges(a, b, c, d);
  }

  /** The library's test table: one address from each block is trusted, two outside addresses are not. */
  lemma TableExamples(s1: string, s2: string, s3: string, s4: string, s5: string, s6: string)
    requires s1 == "174.37.245.33" && s2 == "174.36.197.193" && s3 == "173.193.199.17"
    requires s4 == "119.81.44.1" && s5 == "50.0.2.241" && s6 == "17.178.96.59"
    ensures IsTrustedIP(s1) && IsTrustedIP(s2) && IsTrustedIP(s3) && IsTrustedIP(s4)
    ensures !IsTrustedIP(s5) && !IsTrustedIP(s6)
  {
    Example1(s1);
    Example2(s2);
    Example3(s3);
    Example4(s4);
    Example5(s5);
    Example6(s6);
  }

  lemma Example1(s: string)
    requires s == "174.37.245.33"
    ensures IsTrustedIP(s)
  {
    var a: nat, b: nat, c: nat, d: nat := 174, 37, 245, 33;
    Text1(s, a, b, c, d);
    QuadVerdict(a, b, c, d, s, true);
  }

  lemma Text1(s: string, a: nat, b: nat, c: nat, d: nat)
    requires s == "174.37.245.33" && a == 174 && b == 37 && c == 245 && d == 33
    ensures s == Quad(a, b, c, d)
  {
    Digits(a, "174");
    Digits(b, "37");
    Digits(c, "245");
    Digits(d, "33");
  }

  lemma Example2(s: string)
    requires s == "174.36.197.193"
    ensures IsTrustedIP(s)
  {
    var a: nat, b: nat, c: nat, d: nat := 174, 36, 197, 193;
    Text2(s, a, b, c, d);
    QuadVerdict(a, b, c, d, s, true);
  }

  lemma Text2(s: string, a: nat, b: nat, c: nat, d: nat)
    requires s == "174.36.197.193" && a == 174 && b == 36 && c == 197 && d == 193
    ensures s == Quad(a, b, c, d)
  {
    Digits(a, "174");
    Digits(b, "36");
    Digits(c, "197");
    Digits(d, "193");
  }

  lemma Example3(s: string)
    requires s == "173.193.199.17"
    ensures IsTrustedIP(s)
  {
    var a: nat, b: nat, c: nat, d: nat := 173, 193, 199, 17;
    Text3(s, a, b, c, d);
    QuadVerdict(a, b, c, d, s, true);
  }

  lemma Text3(s: string, a: nat, b: nat, c: nat, d: nat)
    requires s == "173.193.199.17" && a == 173 && b == 193 && c == 199 && d == 17
    ensures s == Quad(a, b, c, d)
  {
    Digits(a, "173");
    Digits(b, "193");
    Digits(c, "199");
    Digits(d, "17");
  }

  lemma Example4(s: string)
    requires s == "119.81.44.1"
    ensures IsTrustedIP(s)
  {
    var a: nat, b: nat, c: nat, d: nat := 119, 81, 44, 1;
    Text4(s, a, b, c, d);
    QuadVerdict(a, b, c, d, s, true);
  }

  lemma Text4(s: string, a: nat, b: nat, c: nat, d: nat)
    requires s == "119.81.44.1" && a == 119 && b == 81 && c == 44 && d == 1
    ensures s == Quad(a, b, c, d)
  {
    Digits(a, "119");
    Digits(b, "81");
    Digits(c, "44");
    Digits(d, "1");
  }

  lemma Example5(s: string)
    requires s == "50.0.2.241"
    ensures !IsTrustedIP(s)
  {
    var a: nat, b: nat, c: nat, d: nat := 50, 0, 2, 241;
    Text5(s, a, b, c, d);
    QuadVerdict(a, b, c, d, s, false);
  }

  lemma Text5(s: string, a: nat, b: nat, c: nat, d: nat)
    requires s == "50.0.2.241" && a == 50 && b == 0 && c == 2 && d == 241
    ensures s == Quad(a, b, c, d)
  {
    Digits(a, "50");
    Digits(b, "0");
    Digits(c, "2");
    Digits(d, "241");
  }

  lemma Example6(s: string)
    requires s == "17.178.96.59"
    ensures !IsTrustedIP(s)
  {
    var a: nat, b: nat, c: nat, d: nat := 17, 178, 96, 59;
    Text6(s, a, b, c, d);
    QuadVerdict(a, b, c, d, s, false);
  }

  lemma Text6(s: string, a: nat, b: nat, c: nat, d: nat)
    requires s == "17.178.96.59" && a == 17 && b == 178 && c == 96 && d == 59
    ensures s == Quad(a, b, c, d)
  {
    Digits(a, "17");
    Digits(b, "178");
    Digits(c, "96");
    Digits(d, "59");
  }
}
