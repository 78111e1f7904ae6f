/** Byte strings, little-endian integers, length-prefixed framing, hexadecimal
    and decimal spellings, and the collision-freedom premise used wherever the
    Kernel relies on a digest.

    A hash is a parameter, never a fixed function. Digests have the real width
    of 32 bytes, so no hash is injective on all inputs; theorems that need
    collision freedom ask for it on the finite set of inputs they hash. */
module Bytes {

  type Byte = n: nat | n < 256
  type Buf = seq<Byte>
  type Digest = b: seq<Byte> | |b| == 32 witness seq(32, _ => 0)
  type Hash = Buf -> Digest

  datatype Option<+T> = None | Some(value: T)

  const U64_MAX: nat := 0xFFFF_FFFF_FFFF_FFFF
  const MAX_SAFE_INTEGER: nat := 9_007_199_254_740_991

  ghost predicate CollisionFreeOn(h: Hash, inputs: set<Buf>) {
    forall x, y | x in inputs && y in inputs && h(x) == h(y) :: x == y
  }

  lemma {:induction false} SubsetSize<T>(a: set<T>, b: set<T>)
    requires a <= b
    ensures |a| <= |b|
    decreases a
  {
    if x :| x in a { SubsetSize(a - {x}, b - {x}); }
  }

  function Ascii(s: string): (b: Buf)
    ensures |b| == |s|
  {
    seq(|s|, i requires 0 <= i < |s| => (s[i] as int) % 256)
  }

  // ---- little-endian integers -------------------------------------------

  function Pow256(width: nat): nat {
    if width == 0 then 1 else 256 * Pow256(width - 1)
  }

  function Le(n: nat, width: nat): (b: Buf)
    ensures |b| == width
  {
    if width == 0 then [] else [n % 256] + Le(n / 256, width - 1)
  }

  function FromLe(b: Buf): nat {
    if b == [] then 0 else b[0] + 256 * FromLe(b[1..])
  }

  lemma {:induction false} LeRoundTrip(n: nat, width: nat)
    requires n < Pow256(width)
    ensures FromLe(Le(n, width)) == n
  {
    if width > 0 {
      LeRoundTrip(n / 256, width - 1);
      assert Le(n, width)[1..] == Le(n / 256, width - 1);
    }
  }

  lemma Pow256Eight()
    ensures Pow256(8) == U64_MAX + 1
  {
  }

  // ---- frames -------------------------------------------------------------

  /** A slice the process can hold: its length fits the 64-bit prefix. */
  predicate Fits(b: Buf) { |b| <= U64_MAX }

  /** `u64` little-endian length, then the bytes. */
  function Frame(b: Buf): (r: Buf)
    ensures |r| == 8 + |b|
  {
    Le(|b|, 8) + b
  }

  function FrameAll(fields: seq<Buf>): Buf {
    if fields == [] then [] else Frame(fields[0]) + FrameAll(fields[1..])
  }

  /** Reads one frame off the front, giving the field and the rest. */
  function Unframe(b: Buf): Option<(Buf, Buf)> {
    if |b| < 8 then None
    else
      var n := FromLe(b[..8]);
      if |b| < 8 + n then None else Some((b[8..8 + n], b[8 + n..]))
  }

  function UnframeAll(b: Buf): Option<seq<Buf>>
    decreases |b|
  {
    if b == [] then Some([])
    else match Unframe(b)
      case None => None
      case Some((field, rest)) =>
        match UnframeAll(rest)
        case None => None
        case Some(fields) => Some([field] + fields)
  }

  lemma UnframeFrame(b: Buf, rest: Buf)
    requires Fits(b)
    ensures Unframe(Frame(b) + rest) == Some((b, rest))
  {
    Pow256Eight();
    LeRoundTrip(|b|, 8);
    var w := Frame(b) + rest;
    assert w[..8] == Le(|b|, 8);
    assert w[8..8 + |b|] == b && w[8 + |b|..] == rest;
  }

  /** Every list of fields is recovered from its framing. */
  lemma {:induction false} UnframeAllFrameAll(fields: seq<Buf>)
    requires forall f | f in fields :: Fits(f)
    ensures UnframeAll(FrameAll(fields)) == Some(fields)
  {
    if fields != [] {
      UnframeFrame(fields[0], FrameAll(fields[1..]));
      UnframeAllFrameAll(fields[1..]);
      assert [fields[0]] + fields[1..] == fields;
    }
  }

  /** Framing is uniquely decodable: no other list, of any length, has it. */
  lemma FrameAllInjective(a: seq<Buf>, b: seq<Buf>)
    requires forall f | f in a :: Fits(f)
    requires forall f | f in b :: Fits(f)
    requires FrameAll(a) == FrameAll(b)
    ensures a == b
  {
    UnframeAllFrameAll(a);
    UnframeAllFrameAll(b);
  }

  lemma FrameCancel(a: Buf, x: Buf, b: Buf, y: Buf)
    requires Fits(a) && Fits(b)
    requires Frame(a) + x == Frame(b) + y
    ensures a == b && x == y
  {
    UnframeFrame(a, x);
    UnframeFrame(b, y);
  }

  /** The loop that grows the hashed buffer field by field. */
  method BuildFrames(fields: seq<Buf>) returns (buf: Buf)
    ensures buf == FrameAll(fields)
  {
    buf := [];
    for i := 0 to |fields|
      invariant buf + FrameAll(fields[i..]) == FrameAll(fields)
    {
      assert fields[i..][1..] == fields[i + 1..];
      buf := buf + Le(|fields[i]|, 8);
      buf := buf + fields[i];
    }
  }

  // ---- optional text ------------------------------------------------------

  /** `0x00` for an absent column, `0x01` and a frame for a present one. */
  function FrameText(t: Option<Buf>): Buf {
    match t
    case None => [0]
    case Some(b) => [1] + Frame(b)
  }

  predicate FitsText(t: Option<Buf>) { t.Some? ==> Fits(t.value) }

  lemma FrameTextCancel(a: Option<Buf>, x: Buf, b: Option<Buf>, y: Buf)
    requires FitsText(a) && FitsText(b)
    requires FrameText(a) + x == FrameText(b) + y
    ensures a == b && x == y
  {
    Tail(FrameText(a), x);
    Tail(FrameText(b), y);
    assert FrameText(a)[0] == FrameText(b)[0];
    if a.Some? {
      assert FrameText(a)[1..] == Frame(a.value) && FrameText(b)[1..] == Frame(b.value);
      FrameCancel(a.value, x, b.value, y);
    } else {
      assert FrameText(a)[1..] + x == x && FrameText(b)[1..] + y == y;
    }
  }

  lemma Tail(a: Buf, x: Buf)
    requires a != []
    ensures (a + x)[0] == a[0]
    ensures (a + x)[1..] == a[1..] + x
  {
  }

  // ---- hexadecimal --------------------------------------------------------

  function HexDigit(n: nat): (b: Byte)
    requires n < 16
  {
    if n < 10 then 48 + n else 87 + n
  }

  /** Lowercase hexadecimal, two digits a byte. */
  function ToHex(b: Buf): (s: Buf)
    ensures |s| == 2 * |b|
    ensures forall i | 0 <= i < |s| :: LowerHex(s[i])
  {
    if b == [] then [] else [HexDigit(b[0] / 16), HexDigit(b[0] % 16)] + ToHex(b[1..])
  }

  predicate LowerHex(c: Byte) { 48 <= c <= 57 || 97 <= c <= 102 }

  lemma {:induction false} ToHexInjective(a: Buf, b: Buf)
    requires ToHex(a) == ToHex(b)
    ensures a == b
  {
    if a != [] && b != [] {
      var x, y := ToHex(a), ToHex(b);
      assert x[0] == y[0] && x[1] == y[1];
      assert a[0] == b[0];
      assert x[2..] == ToHex(a[1..]) && y[2..] == ToHex(b[1..]);
      ToHexInjective(a[1..], b[1..]);
      assert a == [a[0]] + a[1..] && b == [b[0]] + b[1..];
    }
  }

  function HexValue(c: Byte): (n: nat)
    requires LowerHex(c)
    ensures n < 16 && HexDigit(n) == c
  {
    if c <= 57 then c - 48 else c - 87
  }

  /** Undoes `ToHex` on every even-length lowercase string. */
  function FromHex(s: Buf): (b: Buf)
    requires |s| % 2 == 0 && forall i | 0 <= i < |s| :: LowerHex(s[i])
    ensures ToHex(b) == s
    decreases |s|
  {
    if s == [] then []
    else
      assert LowerHex(s[0]) && LowerHex(s[1]);
      var high, low, rest := HexValue(s[0]), HexValue(s[1]), FromHex(s[2..]);
      HexPair(high, low, rest);
      assert s == [s[0], s[1]] + s[2..];
      [16 * high + low] + rest
  }

  lemma HexPair(high: nat, low: nat, rest: Buf)
    requires high < 16 && low < 16
    ensures ToHex([16 * high + low] + rest) == [HexDigit(high), HexDigit(low)] + ToHex(rest)
  {
  }

  // ---- decimal ------------------------------------------------------------

  predicate IsDigit(c: Byte) { 48 <= c <= 57 }

  /** `to_string` of an unsigned integer. */
  function Decimal(n: nat): (s: Buf)
    ensures s != []
    ensures forall i | 0 <= i < |s| :: IsDigit(s[i])
  {
    if n < 10 then [48 + n] else Decimal(n / 10) + [48 + n % 10]
  }

  function DecimalValue(s: Buf): nat
    requires forall i | 0 <= i < |s| :: IsDigit(s[i])
  {
    if s == [] then 0
    else assert IsDigit(s[|s| - 1]); 10 * DecimalValue(s[..|s| - 1]) + (s[|s| - 1] - 48)
  }

  lemma {:induction false} DecimalRoundTrip(n: nat)
    ensures DecimalValue(Decimal(n)) == n
  {
    var s := Decimal(n);
    if n < 10 {
      assert s[..0] == [];
    } else {
      DecimalRoundTrip(n / 10);
      assert s[..|s| - 1] == Decimal(n / 10);
    }
  }

  lemma DecimalInjective(a: nat, b: nat)
    requires Decimal(a) == Decimal(b)
    ensures a == b
  {
    DecimalRoundTrip(a);
    DecimalRoundTrip(b);
  }
}
