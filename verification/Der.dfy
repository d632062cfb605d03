/** Re-encoding a raw P-256 signature (R then S, 32 bytes each) as the DER SEQUENCE of two INTEGERs. */
module Der {
  import opened Wrappers

  type byte = n: nat | n < 256

  const INTEGER: byte := 0x02
  const SEQUENCE: byte := 0x30
  const RAW_SIG_LEN := 64
  /** The largest body length a single length byte can state (X.690 section 8.1.3.4). */
  const SHORT_FORM_MAX := 127

  // ----- Big-endian numbers

  function Unsigned(bytes: seq<byte>): nat
    decreases |bytes|
  {
    if bytes == [] then 0 else Unsigned(bytes[..|bytes| - 1]) * 256 + bytes[|bytes| - 1]
  }

  function Pow256(k: nat): (p: nat)
    ensures p > 0
  {
    if k == 0 then 1 else 256 * Pow256(k - 1)
  }

  lemma {:induction false} Leading(bytes: seq<byte>)
    requires bytes != []
    ensures Unsigned(bytes) == bytes[0] * Pow256(|bytes| - 1) + Unsigned(bytes[1..])
    decreases |bytes|
  {
    if |bytes| > 1 {
      var front := bytes[..|bytes| - 1];
      Leading(front);
      assert front[1..] == bytes[1..][..|bytes| - 2];
    }
  }

  lemma {:induction false} Bounded(bytes: seq<byte>)
    ensures Unsigned(bytes) < Pow256(|bytes|)
    decreases |bytes|
  {
    if bytes != [] { Bounded(bytes[..|bytes| - 1]); }
  }

  lemma {:induction false} SameLengthInjective(a: seq<byte>, b: seq<byte>)
    requires |a| == |b| && Unsigned(a) == Unsigned(b)
    ensures a == b
    decreases |a|
  {
    if a != [] {
      SameLengthInjective(a[..|a| - 1], b[..|b| - 1]);
      assert a == a[..|a| - 1] + [a[|a| - 1]] && b == b[..|b| - 1] + [b[|b| - 1]];
    }
  }

  // ----- What an INTEGER is

  /** A non-negative value in the fewest octets (X.690 section 8.3.2). */
  predicate Minimal(content: seq<byte>) {
    && content != []
    && content[0] < 0x80
    && (|content| > 1 && content[0] == 0 ==> content[1] >= 0x80)
  }

  predicate IsInteger(der: seq<byte>, value: nat) {
    && |der| >= 3 && der[0] == 0x02
    && der[1] == |der| - 2 <= 127
    && Minimal(der[2..]) && Unsigned(der[2..]) == value
  }

  predicate IsSignature(der: seq<byte>, r: nat, s: nat) {
    exists n :: 2 <= n <= |der| && IsSignatureSplit(der, n, r, s)
  }

  predicate IsSignatureSplit(der: seq<byte>, n: nat, r: nat, s: nat)
    requires 2 <= n <= |der|
  {
    && der[0] == 0x30 && der[1] == |der| - 2 <= 127
    && IsInteger(der[2..n], r) && IsInteger(der[n..], s)
  }

  lemma MinimalUpper(a: seq<byte>)
    requires Minimal(a)
    ensures Unsigned(a) < 128 * Pow256(|a| - 1)
  {
    Leading(a);
    Bounded(a[1..]);
    Monotone(a[0] + 1, 128, Pow256(|a| - 1));
  }

  lemma MinimalLower(b: seq<byte>)
    requires Minimal(b) && |b| > 1
    ensures Unsigned(b) >= 128 * Pow256(|b| - 2)
  {
    Leading(b);
    if b[0] == 0 {
      Leading(b[1..]);
      Monotone(128, b[1], Pow256(|b| - 2));
    } else {
      Monotone(1, b[0], Pow256(|b| - 1));
    }
  }

  /** Longer minimal content means a larger number. */
  lemma LongerIsLarger(a: seq<byte>, b: seq<byte>)
    requires Minimal(a) && Minimal(b) && |a| < |b|
    ensures Unsigned(a) < Unsigned(b)
  {
    MinimalUpper(a);
    MinimalLower(b);
    Grows(|a| - 1, |b| - 2);
  }

  lemma Monotone(x: nat, y: nat, p: nat)
    requires x <= y
    ensures x * p <= y * p
  {}

  lemma {:induction false} Grows(i: nat, j: nat)
    requires i <= j
    ensures Pow256(i) <= Pow256(j)
    decreases j
  {
    if i < j { Grows(i, j - 1); }
  }

  /** DER is canonical: a number has one INTEGER encoding. */
  lemma IntegerIsCanonical(a: seq<byte>, b: seq<byte>, value: nat)
    requires IsInteger(a, value) && IsInteger(b, value)
    ensures a == b
  {
    var x, y := a[2..], b[2..];
    if |x| < |y| { LongerIsLarger(x, y); }
    if |y| < |x| { LongerIsLarger(y, x); }
    SameLengthInjective(x, y);
    assert a == [a[0], a[1]] + x && b == [b[0], b[1]] + y;
  }

  lemma PartsDetermine(a: seq<byte>, m: nat, b: seq<byte>, n: nat)
    requires 2 <= m <= |a| && 2 <= n <= |b|
    requires a[..2] == b[..2] && a[2..m] == b[2..n] && a[m..] == b[n..]
    ensures a == b
  {
    assert |a[2..m]| == |b[2..n]|;
    assert a == a[..2] + a[2..m] + a[m..];
    assert b == b[..2] + b[2..n] + b[n..];
  }

  lemma SplitIsCanonical(a: seq<byte>, m: nat, b: seq<byte>, n: nat, r: nat, s: nat)
    requires 2 <= m <= |a| && 2 <= n <= |b|
    requires IsSignatureSplit(a, m, r, s) && IsSignatureSplit(b, n, r, s)
    ensures a == b
  {
    IntegerIsCanonical(a[2..m], b[2..n], r);
    IntegerIsCanonical(a[m..], b[n..], s);
    assert |a| == m + |a[m..]| == 2 + |a[2..m]| + |a[m..]|;
    assert |b| == n + |b[n..]| == 2 + |b[2..n]| + |b[n..]|;
    assert a[..2] == [SEQUENCE, a[1]] && b[..2] == [SEQUENCE, b[1]];
    PartsDetermine(a, m, b, n);
  }

  lemma SignatureIsCanonical(a: seq<byte>, b: seq<byte>, r: nat, s: nat)
    requires IsSignature(a, r, s) && IsSignature(b, r, s)
    ensures a == b
  {
    var m :| 2 <= m <= |a| && IsSignatureSplit(a, m, r, s);
    var n :| 2 <= n <= |b| && IsSignatureSplit(b, n, r, s);
    SplitIsCanonical(a, m, b, n, r, s);
  }

  // ----- Encoding

  lemma DropZero(bytes: seq<byte>, start: nat)
    requires start < |bytes| && bytes[start] == 0
    ensures Unsigned(bytes[start..]) == Unsigned(bytes[start + 1..])
  {
    Leading(bytes[start..]);
    assert bytes[start..][1..] == bytes[start + 1..];
  }

  lemma PadZero(bytes: seq<byte>)
    ensures Unsigned([0] + bytes) == Unsigned(bytes)
  {
    Leading([0] + bytes);
    assert ([0] + bytes)[1..] == bytes;
  }

  /** The length byte is a truncating cast; the result is an INTEGER exactly when it did not matter. */
  method EncodeInt(bytes: seq<byte>) returns (out: seq<byte>)
    requires bytes != []
    ensures 3 <= |out| <= |bytes| + 3
    ensures IsInteger(out, Unsigned(bytes)) <==> |out| - 2 <= 127
  {
    var start := 0;
    while start + 1 < |bytes| && bytes[start] == 0
      invariant start < |bytes|
      invariant Unsigned(bytes[start..]) == Unsigned(bytes)
    {
      DropZero(bytes, start);
      start := start + 1;
    }
    var needsPad := bytes[start] >= 0x80;
    var len := |bytes| - start + if needsPad then 1 else 0;
    out := [INTEGER, (len % 256) as byte];
    if needsPad { out := out + [0]; }
    PadZero(bytes[start..]);
    out := out + bytes[start..];
    assert out[2..] == if needsPad then [0] + bytes[start..] else bytes[start..];
  }

  /** Fails exactly on a length other than 64; otherwise the body is at most 70 bytes. */
  method EncodeP256Sig(raw: seq<byte>) returns (out: Result<seq<byte>, nat>)
    ensures |raw| != 64 ==> out == Failure(|raw|)
    ensures |raw| == 64 ==>
              && out.Success? && |out.value| <= 72
              && IsSignature(out.value, Unsigned(raw[..32]), Unsigned(raw[32..]))
  {
    if |raw| != RAW_SIG_LEN { return Failure(|raw|); }
    var r := EncodeInt(raw[..32]);
    var s := EncodeInt(raw[32..]);
    var bodyLen := |r| + |s|;
    var der: seq<byte> := [SEQUENCE, (bodyLen % 256) as byte] + r + s;
    var n := 2 + |r|;
    assert der[2..n] == r && der[n..] == s;
    assert IsSignatureSplit(der, n, Unsigned(raw[..32]), Unsigned(raw[32..]));
    out := Success(der);
  }

  // ----- Decoding

  /** A strict reader of one INTEGER at the front: its value and its length in bytes. */
  function ReadInt(der: seq<byte>): (r: Option<(nat, nat)>) {
    if |der| < 2 || der[0] != INTEGER || der[1] > SHORT_FORM_MAX || 2 + der[1] > |der| then None
    else
      var content := der[2..2 + der[1]];
      if Minimal(content) then Some((Unsigned(content), 2 + der[1])) else None
  }

  function DecodeSig(der: seq<byte>): Option<(nat, nat)> {
    if |der| < 2 || der[0] != SEQUENCE || der[1] > SHORT_FORM_MAX || der[1] != |der| - 2 then None
    else
      match ReadInt(der[2..])
      case None => None
      case Some(r) =>
        match ReadInt(der[2..][r.1..])
        case None => None
        case Some(s) => if 2 + r.1 + s.1 == |der| then Some((r.0, s.0)) else None
  }

  lemma ReadIntIff(der: seq<byte>, n: nat, value: nat)
    requires n <= |der|
    ensures IsInteger(der[..n], value) <==> ReadInt(der) == Some((value, n))
  {
    if n >= 2 { assert der[..n][2..] == der[2..n]; }
  }

  /** The strict reader accepts exactly the encodings of a pair, and reads the pair back. */
  lemma DecodeIff(der: seq<byte>, r: nat, s: nat)
    ensures DecodeSig(der) == Some((r, s)) <==> IsSignature(der, r, s)
  {
    if DecodeSig(der) == Some((r, s)) {
      var rest := der[2..];
      var a := ReadInt(rest).value;
      ReadIntIff(rest, a.1, r);
      var b := ReadInt(rest[a.1..]).value;
      ReadIntIff(rest[a.1..], b.1, s);
      var n := 2 + a.1;
      assert rest[..a.1] == der[2..n] && rest[a.1..][..b.1] == der[n..];
      assert IsSignatureSplit(der, n, r, s);
    }
    if IsSignature(der, r, s) {
      var n :| 2 <= n <= |der| && IsSignatureSplit(der, n, r, s);
      var rest := der[2..];
      assert rest[..n - 2] == der[2..n] && rest[n - 2..] == der[n..] == der[n..][..|der| - n];
      ReadIntIff(rest, n - 2, r);
      ReadIntIff(der[n..], |der| - n, s);
    }
  }

  /** Different raw signatures never share an encoding. */
  lemma EncodingIsInjective(raw: seq<byte>, other: seq<byte>, der: seq<byte>)
    requires |raw| == |other| == RAW_SIG_LEN
    requires IsSignature(der, Unsigned(raw[..32]), Unsigned(raw[32..]))
    requires IsSignature(der, Unsigned(other[..32]), Unsigned(other[32..]))
    ensures raw == other
  {
    DecodeIff(der, Unsigned(raw[..32]), Unsigned(raw[32..]));
    DecodeIff(der, Unsigned(other[..32]), Unsigned(other[32..]));
    SameLengthInjective(raw[..32], other[..32]);
    SameLengthInjective(raw[32..], other[32..]);
    assert raw == raw[..32] + raw[32..] && other == other[..32] + other[32..];
  }
}
