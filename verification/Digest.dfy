/** mj_host/src/BrainTape.cpp, brain_digest: 64-bit FNV-1a over the bytes of every published output, names and values
    joined. */
module Digest {
  import opened Parsers

  const OFFSET: nat := 1469598103934665603
  const PRIME: nat := 1099511628211

  /** PRIME is odd, so it has an inverse among the 64-bit words; this is it, and the multiple of 2^64 it is off by. */
  const INVERSE: nat := 0xCE965057AFF6957B
  const OVERFLOW: nat := (PRIME * INVERSE - 1) / TWO64

  type Word = x: int | 0 <= x < TWO64

  function Pow2(n: nat): nat {
    if n == 0 then 1 else 2 * Pow2(n - 1)
  }

  /** Exclusive or of the n low bits. */
  function Xor(a: nat, b: nat, n: nat): nat {
    if n == 0 then 0 else (a % 2 + b % 2) % 2 + 2 * Xor(a / 2, b / 2, n - 1)
  }

  lemma {:induction false} XorTwice(a: nat, b: nat, n: nat)
    requires a < Pow2(n)
    ensures Xor(a, b, n) < Pow2(n) && Xor(Xor(a, b, n), b, n) == a
  {
    if n > 0 {
      var x, y := a / 2, b / 2;
      XorTwice(x, y, n - 1);
      LowBitTwice(a % 2, b % 2);
      XorOfDigits((a % 2 + b % 2) % 2, Xor(x, y, n - 1), b, n);
    }
  }

  lemma XorOfDigits(low: nat, high: nat, b: nat, n: nat)
    requires n > 0 && low < 2
    ensures Xor(low + 2 * high, b, n) == (low + b % 2) % 2 + 2 * Xor(high, b / 2, n - 1)
  {
    assert (low + 2 * high) % 2 == low && (low + 2 * high) / 2 == high;
  }

  lemma LowBitTwice(x: nat, y: nat)
    requires x < 2 && y < 2
    ensures ((x + y) % 2 + y) % 2 == x
  {
  }

  lemma {:induction false} XorCommutes(a: nat, b: nat, n: nat)
    ensures Xor(a, b, n) == Xor(b, a, n)
  {
    if n > 0 {
      XorCommutes(a / 2, b / 2, n - 1);
    }
  }

  lemma Pow2Of64()
    ensures Pow2(64) == TWO64
  {
    Pow2Sum(32, 32);
    Pow2Sum(16, 16);
    Pow2Sum(8, 8);
    assert Pow2(8) == 256;
  }

  lemma {:induction false} Pow2Sum(m: nat, n: nat)
    ensures Pow2(m + n) == Pow2(m) * Pow2(n)
  {
    if m > 0 {
      Pow2Sum(m - 1, n);
    }
  }

  function Times(h: nat, k: nat): Word {
    (h * k) % TWO64
  }

  /** One byte: h ^= b, h *= PRIME, in 64 bits. */
  function Step(h: Word, b: Byte): Word {
    Times(Xor(h, b, 64), PRIME)
  }

  /** The state before a byte, from the state after it. */
  function Back(h: Word, b: Byte): Word {
    Pow2Of64();
    XorTwice(Times(h, INVERSE), b, 64);
    Xor(Times(h, INVERSE), b, 64)
  }

  lemma ModOfProduct(x: int, k: int)
    ensures ((x % TWO64) * k) % TWO64 == (x * k) % TWO64
  {
    var q := x / TWO64;
    assert x == q * TWO64 + x % TWO64;
    assert x * k == (q * k) * TWO64 + (x % TWO64) * k;
  }

  lemma ProductWithInverse(h: int, k: int, k': int, a: int, m: int)
    requires k * k' == a * m + 1
    ensures h * k * k' == (h * a) * m + h
  {
    assert h * k * k' == h * (k * k');
    assert h * (a * m + 1) == h * (a * m) + h;
    assert h * (a * m) == (h * a) * m;
  }

  lemma ModOfMultiple(q: int, r: Word)
    ensures (q * TWO64 + r) % TWO64 == r
  {
  }

  lemma TimesAndBack(h: Word, k: nat, k': nat)
    requires k * k' == OVERFLOW * TWO64 + 1
    ensures Times(Times(h, k), k') == h
  {
    ModOfProduct(h * k, k');
    ProductWithInverse(h, k, k', OVERFLOW, TWO64);
    ModOfMultiple(h * OVERFLOW, h);
  }

  /** Each step is a bijection of the 64-bit state. */
  lemma StepIsBijective(h: Word, b: Byte)
    ensures Back(Step(h, b), b) == h && Step(Back(h, b), b) == h
  {
    Pow2Of64();
    assert PRIME * INVERSE == OVERFLOW * TWO64 + 1;
    XorTwice(h, b, 64);
    TimesAndBack(Xor(h, b, 64), PRIME, INVERSE);
    XorTwice(Times(h, INVERSE), b, 64);
    TimesAndBack(h, INVERSE, PRIME);
  }

  lemma StepIsInjective(h: Word, g: Word, b: Byte)
    requires Step(h, b) == Step(g, b)
    ensures h == g
  {
    StepIsBijective(h, b);
    StepIsBijective(g, b);
  }

  /** From one state, different bytes lead to different states. */
  lemma StepIsInjectiveInByte(h: Word, b: Byte, c: Byte)
    requires Step(h, b) == Step(h, c)
    ensures b == c
  {
    StepIsBijective(h, b);
    StepIsBijective(h, c);
    XorSolves(h, b, Times(Step(h, b), INVERSE));
    XorSolves(h, c, Times(Step(h, c), INVERSE));
  }

  lemma XorSolves(h: Word, b: Byte, t: Word)
    requires Xor(t, b, 64) == h
    ensures Xor(h, t, 64) == b
  {
    Pow2Of64();
    XorCommutes(t, b, 64);
    XorTwice(b, t, 64);
  }

  function Fold(h: Word, s: Bytes): Word
    decreases |s|
  {
    if s == [] then h else Fold(Step(h, s[0]), s[1..])
  }

  lemma {:induction false} FoldAppend(h: Word, s: Bytes, t: Bytes)
    ensures Fold(h, s + t) == Fold(Fold(h, s), t)
    decreases |s|
  {
    if s == [] {
      assert s + t == t;
    } else {
      assert (s + t)[1..] == s[1..] + t;
      FoldAppend(Step(h, s[0]), s[1..], t);
    }
  }

  /** The same bytes never bring two different states together. */
  lemma {:induction false} FoldIsInjective(h: Word, g: Word, s: Bytes)
    requires Fold(h, s) == Fold(g, s)
    ensures h == g
    decreases |s|
  {
    if s != [] {
      FoldIsInjective(Step(h, s[0]), Step(g, s[0]), s[1..]);
      StepIsInjective(h, g, s[0]);
    }
  }

  /** Two streams of one length that differ in exactly one byte have different digests. */
  lemma OneByteAlwaysShows(s: Bytes, t: Bytes, i: nat)
    requires |s| == |t| && i < |s| && s[i] != t[i]
    requires forall k :: 0 <= k < |s| && k != i ==> s[k] == t[k]
    ensures Fold(OFFSET, s) != Fold(OFFSET, t)
  {
    var before, after := s[..i], s[i + 1..];
    assert s == before + ([s[i]] + after) && t == before + ([t[i]] + after);
    FoldAppend(OFFSET, before, [s[i]] + after);
    FoldAppend(OFFSET, before, [t[i]] + after);
    var h := Fold(OFFSET, before);
    FoldFirst(h, s[i], after);
    FoldFirst(h, t[i], after);
    if Fold(OFFSET, s) == Fold(OFFSET, t) {
      FoldIsInjective(Step(h, s[i]), Step(h, t[i]), after);
      StepIsInjectiveInByte(h, s[i], t[i]);
    }
  }

  lemma FoldFirst(h: Word, b: Byte, s: Bytes)
    ensures Fold(h, [b] + s) == Fold(Step(h, b), s)
  {
    assert ([b] + s)[1..] == s;
  }

  method Mix(h: Word, s: Bytes) returns (g: Word)
    ensures g == Fold(h, s)
  {
    g := h;
    for i := 0 to |s|
      invariant g == Fold(h, s[..i])
    {
      assert s[..i + 1] == s[..i] + [s[i]];
      FoldAppend(h, s[..i], [s[i]]);
      FoldFirst(Fold(h, s[..i]), s[i], []);
      g := Step(g, s[i]);
    }
    assert s[..|s|] == s;
  }

  /** What one published output gives the digest: its topic's name and the bytes of its last value, one block or
      two; an output never published gives nothing. */
  datatype Output = Silent | Published(name: Bytes, value: seq<Bytes>)

  function Joined(parts: seq<Bytes>): Bytes {
    if parts == [] then [] else parts[0] + Joined(parts[1..])
  }

  function StreamOf(o: Output): Bytes {
    match o
    case Silent => []
    case Published(name, value) => name + Joined(value)
  }

  function Stream(outputs: seq<Output>): Bytes {
    if outputs == [] then [] else StreamOf(outputs[0]) + Stream(outputs[1..])
  }

  lemma {:induction false} JoinedAppend(parts: seq<Bytes>, p: Bytes)
    ensures Joined(parts + [p]) == Joined(parts) + p
  {
    if parts == [] {
      assert (parts + [p])[1..] == [];
    } else {
      assert (parts + [p])[1..] == parts[1..] + [p];
      JoinedAppend(parts[1..], p);
    }
  }

  lemma {:induction false} StreamAppend(outputs: seq<Output>, o: Output)
    ensures Stream(outputs + [o]) == Stream(outputs) + StreamOf(o)
  {
    if outputs == [] {
      assert (outputs + [o])[1..] == [];
    } else {
      assert (outputs + [o])[1..] == outputs[1..] + [o];
      StreamAppend(outputs[1..], o);
    }
  }

  method MixParts(h: Word, parts: seq<Bytes>) returns (g: Word)
    ensures g == Fold(h, Joined(parts))
  {
    g := h;
    for i := 0 to |parts|
      invariant g == Fold(h, Joined(parts[..i]))
    {
      assert parts[..i + 1] == parts[..i] + [parts[i]];
      JoinedAppend(parts[..i], parts[i]);
      FoldAppend(h, Joined(parts[..i]), parts[i]);
      g := Mix(g, parts[i]);
    }
    assert parts[..|parts|] == parts;
  }

  /** Mixing output by output is one digest of all their bytes. */
  method BrainDigest(outputs: seq<Output>) returns (h: Word)
    ensures h == Fold(OFFSET, Stream(outputs))
  {
    h := OFFSET;
    for i := 0 to |outputs|
      invariant h == Fold(OFFSET, Stream(outputs[..i]))
    {
      assert outputs[..i + 1] == outputs[..i] + [outputs[i]];
      StreamAppend(outputs[..i], outputs[i]);
      FoldAppend(OFFSET, Stream(outputs[..i]), StreamOf(outputs[i]));
      match outputs[i]
      case Silent =>
      case Published(name, value) =>
        FoldAppend(h, name, Joined(value));
        h := Mix(h, name);
        h := MixParts(h, value);
    }
    assert outputs[..|outputs|] == outputs;
  }

  /** The digest sees the bytes, not where a name ends and a value starts. */
  lemma DigestIgnoresBoundaries(name: Bytes, moved: Bytes, value: Bytes)
    ensures Fold(OFFSET, Stream([Published(name + moved, [value])]))
         == Fold(OFFSET, Stream([Published(name, [moved + value])]))
  {
    assert Joined([value]) == value + Joined([]) && Joined([moved + value]) == moved + value + Joined([]);
    assert name + moved + value == name + (moved + value);
    assert StreamOf(Published(name + moved, [value])) == StreamOf(Published(name, [moved + value]));
  }
}
