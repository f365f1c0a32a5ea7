/** The time-based codes of auth_service.py (RFC 6238 over RFC 4226). The keyed hash is a parameter. */
module Totp {
  import opened Decimals
  import opened Strings

  type Bytes = b: seq<nat> | forall i :: 0 <= i < |b| ==> b[i] < 256
  /** A SHA-1 digest. */
  type Digest = b: seq<nat> | |b| == 20 && forall i :: 0 <= i < |b| ==> b[i] < 256 witness seq(20, _ => 0)
  type Mac = (Bytes, Bytes) -> Digest

  const STEP := 30

  /** Big-endian unsigned value. */
  function BigEndian(b: Bytes): nat {
    if b == [] then 0 else 256 * BigEndian(b[..|b| - 1]) + b[|b| - 1]
  }

  /** The last k base-256 digits, most significant first. */
  function Pack(n: nat, k: nat): (b: Bytes)
    ensures |b| == k
  {
    if k == 0 then [] else Pack(n / 256, k - 1) + [n % 256]
  }

  function Pow256(k: nat): nat {
    if k == 0 then 1 else 256 * Pow256(k - 1)
  }

  /** Dynamic truncation: masking with 0x0F and 0x7FFFFFFF keeps the low 4 and 31 bits. */
  function Truncate(h: Digest): nat {
    var o := h[19] % 16;
    (BigEndian(h[o..o + 4]) % 0x8000_0000) % 1_000_000
  }

  function SixDigits(code: nat): string {
    var s := Dec(code);
    if |s| < 6 then Zeros(6 - |s|) + s else s
  }

  /** The code of one time step. */
  function CodeOf(mac: Mac, key: Bytes, counter: nat): string {
    SixDigits(Truncate(mac(key, Pack(counter, 8))))
  }

  /** Accepts the codes of the time steps within `window` steps of now. Packing fails in the
      source for a negative counter or one that needs more than 8 bytes. */
  method VerifyTotp(mac: Mac, key: Bytes, code: string, now: nat, window: nat) returns (ok: bool)
    requires STEP * window <= now && now / STEP + window < Pow256(8)
    ensures ok <==> exists c: nat :: now / 30 - window <= c <= now / 30 + window && CodeOf(mac, key, c) == Strip(code)
  {
    var (wanted, current) := (Strip(code), now / STEP);
    for w: int := -(window as int) to window + 1
      invariant !AnyMatch(mac, key, current - window, current + w, wanted)
    {
      StepShift(now, w);
      var counter: nat := (now + w * STEP) / STEP;
      if CodeOf(mac, key, counter) == wanted {
        MatchFound(mac, key, current - window, current + window + 1, counter, wanted);
        return true;
      }
      NoMatchStep(mac, key, current - window, counter, wanted);
    }
    assert !AnyMatch(mac, key, current - window, current + window + 1, wanted);
    return false;
  }

  /** Some time step from lo up to but not including hi has this code. */
  ghost predicate AnyMatch(mac: Mac, key: Bytes, lo: int, hi: int, code: string) {
    exists c: nat :: lo <= c < hi && CodeOf(mac, key, c) == code
  }

  lemma NoMatchStep(mac: Mac, key: Bytes, lo: int, hi: nat, code: string)
    requires !AnyMatch(mac, key, lo, hi, code) && CodeOf(mac, key, hi) != code
    ensures !AnyMatch(mac, key, lo, hi + 1, code)
  {
  }

  lemma MatchFound(mac: Mac, key: Bytes, lo: int, hi: int, c: nat, code: string)
    requires lo <= c < hi && CodeOf(mac, key, c) == code
    ensures AnyMatch(mac, key, lo, hi, code)
  {
  }

  lemma StepShift(now: int, w: int)
    ensures (now + w * STEP) / STEP == now / STEP + w
  {
  }

  // ----- results -----

  /** Section 5.3 of RFC 4226 asks for the 31 low bits of the four bytes at the offset,
      reduced modulo a million: the sign bit is dropped from the first byte alone. */
  lemma TruncateIsStandard(h: Digest)
    ensures var o := h[19] % 16;
      o + 3 < |h| &&
      Truncate(h) == (h[o] % 128 * 0x100_0000 + h[o + 1] * 0x1_0000 + h[o + 2] * 0x100 + h[o + 3]) % 1_000_000
  {
    var o := h[19] % 16;
    FourBytes(h[o..o + 4]);
    DropSignBit(h[o], h[o + 1] * 0x1_0000 + h[o + 2] * 0x100 + h[o + 3]);
  }

  lemma FourBytes(b: Bytes)
    requires |b| == 4
    ensures BigEndian(b) == b[0] * 0x100_0000 + (b[1] * 0x1_0000 + b[2] * 0x100 + b[3])
  {
    var b3 := b[..3];
    var b2 := b3[..2];
    var b1 := b2[..1];
    assert BigEndian(b1) == b[0] by {
      assert b1[..0] == [];
    }
    assert BigEndian(b2) == 256 * b[0] + b[1];
    assert BigEndian(b3) == 256 * (256 * b[0] + b[1]) + b[2];
  }

  lemma DropSignBit(first: nat, low: nat)
    requires first < 256 && low < 0x100_0000
    ensures (first * 0x100_0000 + low) % 0x8000_0000 == first % 128 * 0x100_0000 + low
  {
    if first < 128 {
      assert first % 128 == first;
    } else {
      assert first % 128 == first - 128;
    }
  }

  /** A code is always six digits that read back as the truncated value, so two steps
      share a code only when they share the value. */
  lemma CodeIsSixDigits(mac: Mac, key: Bytes, counter: nat)
    ensures var s := CodeOf(mac, key, counter);
      |s| == 6 && AllDigits(s) && Value(s) == Truncate(mac(key, Pack(counter, 8))) < 1_000_000
  {
    var code := Truncate(mac(key, Pack(counter, 8)));
    assert Pow10(6) == 1_000_000;
    DecLength(code, 6);
    DecRoundTrip(code);
    if |Dec(code)| < 6 {
      PaddedValue(6 - |Dec(code)|, Dec(code));
    }
  }

  /** The eight message bytes of section 5.2 of RFC 4226 determine the counter. */
  lemma {:induction false} PackRoundTrip(n: nat, k: nat)
    requires n < Pow256(k)
    ensures BigEndian(Pack(n, k)) == n
  {
    if k > 0 {
      PackRoundTrip(n / 256, k - 1);
      assert Pack(n, k)[..k - 1] == Pack(n / 256, k - 1);
    }
  }

  lemma CodeHasNoSpace(mac: Mac, key: Bytes, counter: nat)
    ensures Strip(CodeOf(mac, key, counter)) == CodeOf(mac, key, counter)
  {
    CodeIsSixDigits(mac, key, counter);
    var s := CodeOf(mac, key, counter);
    assert IsDigit(s[0]) && IsDigit(s[5]);
  }

  /** Section 5.2 of RFC 6238, transmission delay: a code issued up to `window` whole steps away in
      either direction is one that `VerifyTotp` accepts, and the step of a code issued a further full
      step away is not among those it compares. */
  lemma ClockDrift(mac: Mac, key: Bytes, issued: nat, now: nat, window: nat)
    ensures -30 * window <= now - issued <= 30 * window ==>
      exists c: nat :: now / 30 - window <= c <= now / 30 + window &&
        CodeOf(mac, key, c) == Strip(CodeOf(mac, key, issued / 30))
    ensures !(-30 * (window + 1) < now - issued < 30 * (window + 1)) ==>
      !(now / 30 - window <= issued / 30 < now / 30 + window + 1)
  {
    CodeHasNoSpace(mac, key, issued / STEP);
    if -STEP * window <= now - issued <= STEP * window {
      StepsWithin(issued, now, window);
    }
  }

  lemma StepsWithin(issued: nat, now: nat, window: nat)
    requires -STEP * window <= now - issued <= STEP * window
    ensures now / STEP - window <= issued / STEP <= now / STEP + window
  {
  }
}
