/**
 From the clock and the digest to the code on the screen: the counter as eight bytes, the dynamic
 truncation and the decimal digits (sections 5.2 and 5.3 of RFC 4226). The keyed digest itself is an
 arbitrary byte string.
 */
module TotpCode {
  import opened TotpProtobuf

  // ---- Big-endian numbers ----

  function Power256(n: nat): nat {
    if n == 0 then 1 else 256 * Power256(n - 1)
  }

  function FromBigEndian(b: seq<Byte>): nat {
    if b == [] then 0 else 256 * FromBigEndian(b[..|b| - 1]) + b[|b| - 1]
  }

  function UInt32BigEndian(n: nat): (b: seq<Byte>)
    requires n < TWO_32
    ensures |b| == 4
  {
    [n / 0x100_0000, n / 0x1_0000 % 256, n / 0x100 % 256, n % 256]
  }

  lemma {:induction false} BigEndianJoins(a: seq<Byte>, b: seq<Byte>)
    ensures FromBigEndian(a + b) == FromBigEndian(a) * Power256(|b|) + FromBigEndian(b)
  {
    if b == [] {
      assert a + b == a;
    } else {
      var front := b[..|b| - 1];
      BigEndianJoins(a, front);
      assert (a + b)[..|a + b| - 1] == a + front;
      assert FromBigEndian(a) * (256 * Power256(|front|)) == 256 * (FromBigEndian(a) * Power256(|front|));
    }
  }

  function Word(w: nat, x: nat, y: nat, z: nat): nat {
    0x100_0000 * w + 0x1_0000 * x + 0x100 * y + z
  }

  lemma FourBytes(b: seq<Byte>)
    requires |b| == 4
    ensures FromBigEndian(b) == Word(b[0], b[1], b[2], b[3])
  {
    assert b[..3][..2] == b[..2] && b[..2][..1] == b[..1] && b[..1][..0] == [];
    assert FromBigEndian(b[..1]) == b[0];
    assert FromBigEndian(b[..2]) == 256 * FromBigEndian(b[..1]) + b[1];
    assert FromBigEndian(b[..3]) == 256 * FromBigEndian(b[..2]) + b[2];
  }

  lemma UInt32ReadsBack(n: nat)
    requires n < TWO_32
    ensures FromBigEndian(UInt32BigEndian(n)) == n
  {
    FourBytes(UInt32BigEndian(n));
    WordIsNumber(n);
  }

  lemma WordIsNumber(n: nat)
    ensures Word(n / 0x100_0000, n / 0x1_0000 % 256, n / 0x100 % 256, n % 256) == n
  {
    assert n / 0x100 / 256 == n / 0x1_0000 && n / 0x1_0000 / 256 == n / 0x100_0000;
  }

  // ---- The counter ----

  /** The number of whole periods, and what is left of the current one. */
  function Counter(nowMs: nat, period: nat): nat
    requires period >= 1
  {
    nowMs / 1000 / period
  }

  function RemainingSeconds(nowMs: nat, period: nat): (r: nat)
    requires period >= 1
    ensures 1 <= r <= period
  {
    period - nowMs / 1000 % period
  }

  /** The high word, then the low word. */
  function CounterBytes(counter: nat): (b: seq<Byte>)
    requires counter < TWO_32 * TWO_32
    ensures |b| == 8
  {
    UInt32BigEndian(counter / TWO_32) + UInt32BigEndian(counter % TWO_32)
  }

  /** Splitting the counter in two words gives its eight bytes. */
  lemma CounterReadsBack(counter: nat)
    requires counter < TWO_32 * TWO_32
    ensures FromBigEndian(CounterBytes(counter)) == counter
  {
    var high, low := counter / TWO_32, counter % TWO_32;
    BigEndianJoins(UInt32BigEndian(high), UInt32BigEndian(low));
    UInt32ReadsBack(high);
    UInt32ReadsBack(low);
    assert Power256(4) == 256 * 256 * 256 * 256 by {
      assert Power256(2) == 256 * 256;
    }
  }

  /** The counter and what remains account for the whole clock: the same code until the period ends, a
      new counter right after. */
  lemma PeriodsTile(nowMs: nat, period: nat)
    requires period >= 1
    ensures nowMs / 1000 == Counter(nowMs, period) * period + (period - RemainingSeconds(nowMs, period))
  {
  }

  /** `true` exactly when the period has at least the asked seconds to go. */
  predicate CanSubmitSafely(nowMs: nat, periodSeconds: int, minRemainingSeconds: int) {
    var period := if periodSeconds < 1 then 1 else periodSeconds;
    var minRemaining := if minRemainingSeconds < 0 then 0 else minRemainingSeconds;
    RemainingSeconds(nowMs, period) >= minRemaining
  }

  lemma SafeSubmitKeepsItsCode(nowMs: nat, laterMs: nat, period: nat, seconds: nat)
    requires period >= 1 && nowMs <= laterMs && laterMs / 1000 < nowMs / 1000 + seconds
    requires CanSubmitSafely(nowMs, period, seconds)
    ensures Counter(laterMs, period) == Counter(nowMs, period)
  {
    var now, later, c := nowMs / 1000, laterMs / 1000, Counter(nowMs, period);
    PeriodsTile(nowMs, period);
    assert c * period <= now <= later < c * period + period;
    SameQuotient(later, period, c);
  }

  /** Exactly when: a code is good for the asked seconds if and only if submitting it is called safe. */
  lemma SafeExactlyWhileItsCodeLasts(nowMs: nat, period: nat, seconds: nat)
    requires period >= 1
    ensures CanSubmitSafely(nowMs, period, seconds) <==>
      forall laterMs: nat :: nowMs <= laterMs && laterMs / 1000 < nowMs / 1000 + seconds ==>
        Counter(laterMs, period) == Counter(nowMs, period)
  {
    if CanSubmitSafely(nowMs, period, seconds) {
      forall laterMs: nat | nowMs <= laterMs && laterMs / 1000 < nowMs / 1000 + seconds
        ensures Counter(laterMs, period) == Counter(nowMs, period)
      {
        SafeSubmitKeepsItsCode(nowMs, laterMs, period, seconds);
      }
    } else {
      var c := Counter(nowMs, period);
      PeriodsTile(nowMs, period);
      var laterMs := 1000 * ((c + 1) * period);
      assert (c + 1) * period == nowMs / 1000 + RemainingSeconds(nowMs, period);
      assert laterMs / 1000 == (c + 1) * period;
      SameQuotient((c + 1) * period, period, c + 1);
      assert Counter(laterMs, period) == c + 1;
    }
  }

  lemma SameQuotient(n: nat, d: nat, q: nat)
    requires d >= 1 && q * d <= n < q * d + d
    ensures n / d == q
  {
    var p := n / d;
    assert p * d <= n < p * d + d;
    if p < q {
      Ordered(p + 1, q, d);
    } else if p > q {
      Ordered(q + 1, p, d);
    }
  }

  lemma Ordered(a: nat, b: nat, d: nat)
    requires a <= b
    ensures a * d <= b * d
  {
  }

  // ---- Truncation ----

  /** Four bytes of the digest from the offset in its last half byte, without the top bit. */
  function Truncated(digest: seq<Byte>): nat
    requires |digest| >= 20
  {
    var offset := digest[|digest| - 1] % 16;
    Word(digest[offset] % 128, digest[offset + 1], digest[offset + 2], digest[offset + 3])
  }

  /** The last 31 bits of those four bytes. */
  lemma TruncatedIsLast31Bits(digest: seq<Byte>)
    requires |digest| >= 20
    ensures var offset := digest[|digest| - 1] % 16;
      Truncated(digest) == FromBigEndian(digest[offset..offset + 4]) % 0x8000_0000
  {
    var offset := digest[|digest| - 1] % 16;
    FourBytes(digest[offset..offset + 4]);
    TopBitDropped(digest[offset], digest[offset + 1], digest[offset + 2], digest[offset + 3]);
  }

  lemma TopBitDropped(w: Byte, x: Byte, y: Byte, z: Byte)
    ensures Word(w, x, y, z) % 0x8000_0000 == Word(w % 128, x, y, z)
  {
    if w < 128 {
      Remainder(Word(w, x, y, z), 0);
    } else {
      assert w % 128 == w - 128;
      Remainder(Word(w - 128, x, y, z), 1);
    }
  }

  lemma Remainder(n: nat, times: nat)
    requires n < 0x8000_0000 && times <= 1
    ensures (0x8000_0000 * times + n) % 0x8000_0000 == n
  {
  }

  // ---- Decimal digits ----

  function Power10(n: nat): (p: nat)
    ensures p >= 1
  {
    if n == 0 then 1 else 10 * Power10(n - 1)
  }

  function DigitChar(d: nat): char
    requires d < 10
  {
    '0' + d as char
  }

  /** `String(n)`. */
  function Decimal(n: nat): string {
    if n < 10 then [DigitChar(n)] else Decimal(n / 10) + [DigitChar(n % 10)]
  }

  function PadStart(s: string, width: nat): string {
    if |s| >= width then s else seq(width - |s|, i => '0') + s
  }

  predicate IsDigits(s: string) {
    forall i :: 0 <= i < |s| ==> '0' <= s[i] <= '9'
  }

  function Value(s: string): nat
    requires IsDigits(s)
  {
    if s == "" then 0 else 10 * Value(s[..|s| - 1]) + (s[|s| - 1] - '0') as nat
  }

  lemma {:induction false} DecimalFits(n: nat, width: nat)
    requires n < Power10(width) && width >= 1
    ensures |Decimal(n)| <= width && IsDigits(Decimal(n)) && Value(Decimal(n)) == n
    decreases n
  {
    if n < 10 {
      assert Decimal(n)[..0] == "";
    } else {
      assert width > 1;
      DecimalFits(n / 10, width - 1);
      assert Decimal(n)[..|Decimal(n)| - 1] == Decimal(n / 10);
    }
  }

  lemma {:induction false} ZerosInFront(k: nat, s: string)
    requires IsDigits(s)
    ensures IsDigits(seq(k, i => '0') + s) && Value(seq(k, i => '0') + s) == Value(s)
    decreases k, |s|
  {
    var zeros := seq(k, i => '0');
    if s != "" {
      ZerosInFront(k, s[..|s| - 1]);
      assert (zeros + s)[..|zeros + s| - 1] == zeros + s[..|s| - 1];
    } else if k > 0 {
      assert zeros + s == zeros && zeros[..k - 1] == seq(k - 1, i => '0');
      ZerosInFront(k - 1, "");
      assert seq(k - 1, i => '0') + "" == seq(k - 1, i => '0');
    }
  }

  function Code(digest: seq<Byte>, digits: nat): string
    requires |digest| >= 20
  {
    PadStart(Decimal(Truncated(digest) % Power10(digits)), digits)
  }

  /** Exactly the asked number of digits, and their value is the truncation modulo that power of ten. */
  lemma CodeIsExact(digest: seq<Byte>, digits: nat)
    requires |digest| >= 20 && digits >= 1
    ensures var code := Code(digest, digits);
      |code| == digits && IsDigits(code) && Value(code) == Truncated(digest) % Power10(digits)
  {
    var n := Truncated(digest) % Power10(digits);
    DecimalFits(n, digits);
    ZerosInFront(digits - |Decimal(n)|, Decimal(n));
    assert seq(0, i => '0') + Decimal(n) == Decimal(n);
  }
}
