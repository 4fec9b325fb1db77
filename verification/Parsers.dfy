/** mj_host/src/BrainTape.cpp: the building blocks of the tape's format, as bytes and as parsers of them.

    A parser tells a file that ends too soon from one that is corrupt, since only the first leaves the cursor at the end.
    Two things are proved of every parser here: it reads back what was written, and what it has decided on a file it
    decides on every longer one. */
module Parsers {
  type Byte = b: int | 0 <= b < 256
  type Bytes = seq<Byte>
  const TWO32 := 0x1_0000_0000
  const TWO64 := 0x1_0000_0000_0000_0000

  // ---------------------------------------------------------------- writing

  /** The n low bytes of v, least significant first. */
  function Le(v: nat, n: nat): Bytes {
    if n == 0 then [] else [v % 256] + Le(v / 256, n - 1)
  }

  function FromLe(s: Bytes): nat {
    if s == [] then 0 else s[0] + 256 * FromLe(s[1..])
  }

  function Pow256(n: nat): nat {
    if n == 0 then 1 else 256 * Pow256(n - 1)
  }

  function PutAll<T>(put: T -> Bytes, vs: seq<T>): Bytes {
    if vs == [] then [] else put(vs[0]) + PutAll(put, vs[1..])
  }

  function PutList<T>(put: T -> Bytes, vs: seq<T>): Bytes {
    Le(|vs| % TWO32, 4) + PutAll(put, vs)
  }

  // ---------------------------------------------------------------- reading

  /** Short: the file ended inside the value, and the cursor is at its end. */
  datatype Read<+T> = Got(value: T, rest: Bytes) | Short | Corrupt(rest: Bytes)

  type Parser<!T> = Bytes -> Read<T>

  function Take(n: nat): Parser<Bytes> {
    s => if n <= |s| then Got(s[..n], s[n..]) else Short
  }

  function Map<A, B>(p: Parser<A>, f: A -> B): Parser<B> {
    s => match p(s)
      case Got(a, rest) => Got(f(a), rest)
      case Short => Short
      case Corrupt(rest) => Corrupt(rest)
  }

  function Pair<A, B>(p: Parser<A>, q: Parser<B>): Parser<(A, B)> {
    Then(p, a => Map(q, b => (a, b)))
  }

  function Then<A, B>(p: Parser<A>, f: A -> Parser<B>): Parser<B> {
    s => match p(s)
      case Got(a, rest) => f(a)(rest)
      case Short => Short
      case Corrupt(rest) => Corrupt(rest)
  }

  function Number(n: nat): Parser<nat> {
    Map(Take(n), FromLe)
  }

  /** A count or length above its limit is corruption. */
  function Count(limit: nat): Parser<nat> {
    s => match Number(4)(s)
      case Got(n, rest) => if n > limit then Corrupt(rest) else Got(n, rest)
      case Short => Short
      case Corrupt(rest) => Corrupt(rest)
  }

  function Many<T>(p: Parser<T>, n: nat): Parser<seq<T>> {
    if n == 0 then s => Got([], s)
    else Cons(p, Many(p, n - 1))
  }

  function Cons<T>(p: Parser<T>, q: Parser<seq<T>>): Parser<seq<T>> {
    Map(Pair(p, q), (v: (T, seq<T>)) => [v.0] + v.1)
  }

  function List<T>(p: Parser<T>, limit: nat): Parser<seq<T>> {
    Then(Count(limit), (n: nat) => Many(p, n))
  }

  // ---------------------------------------------------------------- more bytes change nothing

  ghost predicate Extends<T(!new)>(size: nat, r: Read<T>, more: Read<T>, q: Bytes) {
    match r
    case Got(v, rest) => |rest| <= size && more == Got(v, rest + q)
    case Short => true
    case Corrupt(rest) => more == Corrupt(rest + q)
  }

  /** What a parser has decided on s it decides on every longer file; it never gives bytes back. */
  ghost predicate Stable<T(!new)>(p: Parser<T>) {
    forall s, q :: StableAt(p, s, q)
  }

  ghost predicate StableAt<T(!new)>(p: Parser<T>, s: Bytes, q: Bytes) {
    Extends(|s|, p(s), p(s + q), q)
  }

  lemma StableTake(n: nat)
    ensures Stable(Take(n))
  {
    forall s, q ensures StableAt(Take(n), s, q) {
      if n <= |s| {
        assert (s + q)[..n] == s[..n] && (s + q)[n..] == s[n..] + q;
      }
    }
  }

  lemma StableMap<A(!new), B(!new)>(p: Parser<A>, f: A -> B)
    requires Stable(p)
    ensures Stable(Map(p, f))
  {
    forall s, q ensures StableAt(Map(p, f), s, q) {
      assert StableAt(p, s, q);
    }
  }

  lemma StableThen<A(!new), B(!new)>(p: Parser<A>, f: A -> Parser<B>)
    requires Stable(p) && forall a :: Stable(f(a))
    ensures Stable(Then(p, f))
  {
    forall s, q ensures StableAt(Then(p, f), s, q) {
      assert StableAt(p, s, q);
      if p(s).Got? {
        assert Stable(f(p(s).value));
        assert StableAt(f(p(s).value), p(s).rest, q);
      }
    }
  }

  lemma StablePair<A(!new), B(!new)>(p: Parser<A>, q: Parser<B>)
    requires Stable(p) && Stable(q)
    ensures Stable(Pair(p, q))
  {
    var f := (a: A) => Map(q, (b: B) => (a, b));
    forall a ensures Stable(f(a)) {
      StableMap(q, (b: B) => (a, b));
    }
    StableThen(p, f);
    forall s, x ensures StableAt(Pair(p, q), s, x) {
      assert StableAt(Then(p, f), s, x);
      assert Pair(p, q)(s) == Then(p, f)(s) && Pair(p, q)(s + x) == Then(p, f)(s + x);
    }
  }

  lemma StableNumber(n: nat)
    ensures Stable(Number(n))
  {
    StableTake(n);
    StableMap(Take(n), FromLe);
  }

  lemma StableCount(limit: nat)
    ensures Stable(Count(limit))
  {
    StableNumber(4);
    forall s, q ensures StableAt(Count(limit), s, q) {
      assert StableAt(Number(4), s, q);
    }
  }

  lemma StableCons<T(!new)>(p: Parser<T>, q: Parser<seq<T>>)
    requires Stable(p) && Stable(q)
    ensures Stable(Cons(p, q))
  {
    StablePair(p, q);
    StableMap(Pair(p, q), (v: (T, seq<T>)) => [v.0] + v.1);
  }

  lemma {:induction false} StableMany<T(!new)>(p: Parser<T>, n: nat)
    requires Stable(p)
    ensures Stable(Many(p, n))
  {
    if n > 0 {
      StableMany(p, n - 1);
      StableCons(p, Many(p, n - 1));
    }
  }

  lemma StableList<T(!new)>(p: Parser<T>, limit: nat)
    requires Stable(p)
    ensures Stable(List(p, limit))
  {
    StableCount(limit);
    var f := (n: nat) => Many(p, n);
    forall n ensures Stable(f(n)) {
      StableMany(p, n);
    }
    StableThen(Count(limit), f);
  }

  // ---------------------------------------------------------------- reading back what was written

  /** On `enc` and anything after it, p reads v and leaves the rest. */
  ghost predicate Reads<T(!new)>(p: Parser<T>, enc: Bytes, v: T) {
    forall rest :: p(enc + rest) == Got(v, rest)
  }

  lemma ReadsTake(b: Bytes)
    ensures Reads(Take(|b|), b, b)
  {
    forall rest ensures Take(|b|)(b + rest) == Got(b, rest) {
      assert (b + rest)[..|b|] == b && (b + rest)[|b|..] == rest;
    }
  }

  lemma ReadsThen<A(!new), B(!new)>(p: Parser<A>, f: A -> Parser<B>, e: Bytes, a: A, e': Bytes, b: B)
    requires Reads(p, e, a) && Reads(f(a), e', b)
    ensures Reads(Then(p, f), e + e', b)
  {
    forall rest ensures Then(p, f)(e + e' + rest) == Got(b, rest) {
      assert e + e' + rest == e + (e' + rest);
    }
  }

  lemma ReadsPair<A(!new), B(!new)>(p: Parser<A>, q: Parser<B>, e: Bytes, a: A, e': Bytes, b: B)
    requires Reads(p, e, a) && Reads(q, e', b)
    ensures Reads(Pair(p, q), e + e', (a, b))
  {
    forall rest ensures Pair(p, q)(e + e' + rest) == Got((a, b), rest) {
      assert e + e' + rest == e + (e' + rest);
    }
  }

  lemma {:induction false} LeThenFrom(v: nat, n: nat)
    requires v < Pow256(n)
    ensures |Le(v, n)| == n && FromLe(Le(v, n)) == v
  {
    if n > 0 {
      LeThenFrom(v / 256, n - 1);
      assert Le(v, n)[1..] == Le(v / 256, n - 1);
    }
  }

  lemma PowersOf256()
    ensures Pow256(1) == 256 && Pow256(4) == TWO32 && Pow256(8) == TWO64
  {
    assert Pow256(2) == 256 * 256;
    assert Pow256(3) == 256 * 256 * 256;
    assert Pow256(5) == 256 * Pow256(4);
    assert Pow256(6) == 256 * Pow256(5);
    assert Pow256(7) == 256 * Pow256(6);
  }

  lemma ReadsNumber(v: nat, n: nat)
    requires v < Pow256(n)
    ensures Reads(Number(n), Le(v, n), v)
  {
    LeThenFrom(v, n);
    ReadsTake(Le(v, n));
  }

  lemma ReadsByte(b: Byte)
    ensures Reads(Number(1), [b], b)
  {
    PowersOf256();
    ReadsNumber(b, 1);
    assert Le(b, 1) == [b];
  }

  lemma ReadsCountOf(limit: nat, n: nat, enc: Bytes)
    requires n <= limit && Reads(Number(4), enc, n)
    ensures Reads(Count(limit), enc, n)
  {
    forall rest ensures Count(limit)(enc + rest) == Got(n, rest) {
      assert Number(4)(enc + rest) == Got(n, rest);
    }
  }

  lemma ReadsCount(limit: nat, n: nat)
    requires n <= limit && n < TWO32
    ensures Reads(Count(limit), Le(n % TWO32, 4), n)
  {
    PowersOf256();
    assert n % TWO32 == n;
    ReadsNumber(n, 4);
    ReadsCountOf(limit, n, Le(n % TWO32, 4));
  }

  lemma ReadsCons<T(!new)>(p: Parser<T>, q: Parser<seq<T>>, e: Bytes, v: T, e': Bytes, vs: seq<T>)
    requires Reads(p, e, v) && Reads(q, e', vs)
    ensures Reads(Cons(p, q), e + e', [v] + vs)
  {
    ReadsPair(p, q, e, v, e', vs);
  }

  lemma {:induction false} ReadsMany<T(!new)>(p: Parser<T>, put: T -> Bytes, vs: seq<T>)
    requires forall v :: v in vs ==> Reads(p, put(v), v)
    ensures Reads(Many(p, |vs|), PutAll(put, vs), vs)
  {
    if vs == [] {
      forall rest ensures Many(p, 0)(PutAll(put, vs) + rest) == Got(vs, rest) {
        assert [] + rest == rest;
      }
    } else {
      assert vs[0] in vs && forall v :: v in vs[1..] ==> v in vs;
      ReadsMany(p, put, vs[1..]);
      ReadsCons(p, Many(p, |vs| - 1), put(vs[0]), vs[0], PutAll(put, vs[1..]), vs[1..]);
      assert [vs[0]] + vs[1..] == vs;
    }
  }

  lemma ReadsList<T(!new)>(p: Parser<T>, put: T -> Bytes, vs: seq<T>, limit: nat)
    requires |vs| <= limit < TWO32 && forall v :: v in vs ==> Reads(p, put(v), v)
    ensures Reads(List(p, limit), PutList(put, vs), vs)
  {
    ReadsCount(limit, |vs|);
    ReadsMany(p, put, vs);
    var f := (n: nat) => Many(p, n);
    ReadsThen<nat, seq<T>>(Count(limit), f, Le(|vs| % TWO32, 4), |vs|, PutAll(put, vs), vs);
  }

  // ---------------------------------------------------------------- one value after another

  /** p takes bytes for every value. */
  ghost predicate Shrinks<T(!new)>(p: Parser<T>) {
    forall s :: p(s).Got? ==> |p(s).rest| < |s|
  }

  /** The values p reads from s one after another until it first fails, and whether that was the file's end. */
  ghost function ReadMany<T(!new)>(p: Parser<T>, s: Bytes): (seq<T>, bool)
    requires Shrinks(p)
    decreases |s|
  {
    match p(s)
    case Got(v, rest) => ([v] + ReadMany(p, rest).0, ReadMany(p, rest).1)
    case Short => ([], true)
    case Corrupt(_) => ([], false)
  }

  /** A value's encoding cut short reads as nothing, and the file is at its end. */
  lemma CutIsShort<T(!new)>(p: Parser<T>, e: Bytes, v: T, n: nat)
    requires Stable(p) && Reads(p, e, v) && n < |e|
    ensures p(e[..n]) == Short
  {
    var s, q := e[..n], e[n..];
    assert s + q == e + [];
    assert p(e + []) == Got(v, []);
    assert StableAt(p, s, q);
  }

  /** The number of whole values in the first n bytes of vs written one after another. */
  function Whole<T>(put: T -> Bytes, vs: seq<T>, n: nat): (k: nat)
    ensures k <= |vs|
    ensures |PutAll(put, vs[..k])| <= n && (k < |vs| ==> n < |PutAll(put, vs[..k + 1])|)
  {
    if vs == [] then 0
    else if n < |put(vs[0])| then
      assert vs[..1][1..] == [] && PutAll(put, vs[..1]) == put(vs[0]) + PutAll(put, []);
      0
    else
      var k := Whole(put, vs[1..], n - |put(vs[0])|);
      assert vs[..k + 1][1..] == vs[1..][..k];
      assert k + 1 < |vs| ==> vs[..k + 2][1..] == vs[1..][..k + 1];
      k + 1
  }

  /** Cutting vs written out at n, past the first value, cuts the others at n less that value's size. */
  lemma CutStep<T>(put: T -> Bytes, vs: seq<T>, n: nat)
    requires vs != [] && |put(vs[0])| <= n <= |PutAll(put, vs)|
    ensures PutAll(put, vs)[..n] == put(vs[0]) + PutAll(put, vs[1..])[..n - |put(vs[0])|]
    ensures vs[..Whole(put, vs, n)] == [vs[0]] + vs[1..][..Whole(put, vs[1..], n - |put(vs[0])|)]
  {
    AppendThenCut(put(vs[0]), PutAll(put, vs[1..]), n);
  }

  lemma AppendThenCut(e: Bytes, tail: Bytes, n: nat)
    requires |e| <= n <= |e + tail|
    ensures (e + tail)[..n] == e + tail[..n - |e|]
  {
  }

  /** p reads back every one of vs. */
  ghost predicate ReadsEach<T(!new)>(p: Parser<T>, put: T -> Bytes, vs: seq<T>) {
    forall v :: v in vs ==> Reads(p, put(v), v)
  }

  lemma ReadManyStep<T(!new)>(p: Parser<T>, s: Bytes, v: T, rest: Bytes)
    requires Shrinks(p) && p(s) == Got(v, rest)
    ensures ReadMany(p, s) == ([v] + ReadMany(p, rest).0, ReadMany(p, rest).1)
  {
  }

  /** Values written one after another and cut anywhere read back as the whole ones in the cut. */
  lemma {:induction false} ReadManyOfCut<T(!new)>(p: Parser<T>, put: T -> Bytes, vs: seq<T>, n: nat)
    requires Shrinks(p) && Stable(p) && ReadsEach(p, put, vs) && n <= |PutAll(put, vs)|
    requires p([]) == Short
    ensures ReadMany(p, PutAll(put, vs)[..n]) == (vs[..Whole(put, vs, n)], true)
  {
    if vs != [] {
      var e := put(vs[0]);
      assert vs[0] in vs && Reads(p, e, vs[0]);
      if n < |e| {
        CutIsShort(p, e, vs[0], n);
        assert PutAll(put, vs)[..n] == e[..n];
      } else {
        CutStep(put, vs, n);
        var tail := PutAll(put, vs[1..])[..n - |e|];
        assert p(e + tail) == Got(vs[0], tail);
        ReadManyStep(p, e + tail, vs[0], tail);
        ReadManyOfCut(p, put, vs[1..], n - |e|);
      }
    }
  }

  lemma {:induction false} WholeOfAll<T>(put: T -> Bytes, vs: seq<T>)
    ensures Whole(put, vs, |PutAll(put, vs)|) == |vs|
  {
    if vs != [] {
      WholeOfAll(put, vs[1..]);
    }
  }

  lemma {:induction false} PutAllAppend<T>(put: T -> Bytes, vs: seq<T>, v: T)
    ensures PutAll(put, vs + [v]) == PutAll(put, vs) + put(v)
  {
    if vs == [] {
      assert (vs + [v])[1..] == [];
    } else {
      assert (vs + [v])[1..] == vs[1..] + [v];
      PutAllAppend(put, vs[1..], v);
    }
  }

  lemma PutAllStep<T>(f: Bytes, put: T -> Bytes, vs: seq<T>, i: nat)
    requires i < |vs|
    ensures f + PutAll(put, vs[..i]) + put(vs[i]) == f + PutAll(put, vs[..i + 1])
  {
    PutAllAppend(put, vs[..i], vs[i]);
    assert vs[..i + 1] == vs[..i] + [vs[i]];
    Regroup2(f, PutAll(put, vs[..i]), put(vs[i]));
  }

  lemma Regroup2<T>(f: seq<T>, x: seq<T>, y: seq<T>)
    ensures f + x + y == f + (x + y)
  {
  }

  lemma Regroup3(f: Bytes, x: Bytes, y: Bytes, z: Bytes)
    ensures f + x + y + z == f + (x + (y + z))
  {
  }

  // ---------------------------------------------------------------- reading step by step

  predicate Gives<T(==)>(p: Parser<T>, s: Bytes, out: Read<T>) {
    p(s) == out
  }

  predicate Outcome<T(==)>(out: Read<T>, good: bool, v: T, rest: Bytes) {
    match out
    case Got(x, t) => good && v == x && rest == t
    case Short => !good && rest == []
    case Corrupt(t) => !good && rest == t
  }

  /** A read step has done what p says it does on s: it succeeded with p's value and left p's rest, or failed. */
  ghost predicate Did<T(!new)>(p: Parser<T>, s: Bytes, good: bool, v: T, rest: Bytes) {
    forall out :: Gives(p, s, out) ==> Outcome(out, good, v, rest)
  }

  lemma DidIs<T(!new)>(p: Parser<T>, s: Bytes, good: bool, v: T, rest: Bytes)
    ensures Did(p, s, good, v, rest) <==> Outcome(p(s), good, v, rest)
  {
    assert Gives(p, s, p(s));
  }

  lemma DidMap<A(!new), B(!new)>(p: Parser<A>, f: A -> B, q: Parser<B>,
                                 s: Bytes, good: bool, v: A, w: B, rest: Bytes)
    requires Did(p, s, good, v, rest)
    requires q == Map(p, f) && w == f(v)
    ensures Did(q, s, good, w, rest)
  {
    DidIs(p, s, good, v, rest);
    DidIs(q, s, good, w, rest);
  }

  /** One step, then a second one only if the first succeeded. */
  lemma DidPair<A(!new), B(!new)>(p: Parser<A>, q: Parser<B>, s: Bytes, good: bool, a: A, mid: Bytes, good': bool,
                  b: B, rest: Bytes)
    requires Did(p, s, good, a, mid)
    requires if good then Did(q, mid, good', b, rest) else !good' && rest == mid
    ensures Did(Pair(p, q), s, good', (a, b), rest)
  {
    DidIs(p, s, good, a, mid);
    DidIs(q, mid, good', b, rest);
    DidIs(Pair(p, q), s, good', (a, b), rest);
  }

  lemma DidThen<A(!new), B(!new)>(p: Parser<A>, f: A -> Parser<B>, s: Bytes, good: bool, a: A, mid: Bytes,
                  good': bool, b: B, rest: Bytes)
    requires Did(p, s, good, a, mid)
    requires if good then Did(f(a), mid, good', b, rest) else !good' && rest == mid
    ensures Did(Then(p, f), s, good', b, rest)
  {
    DidIs(p, s, good, a, mid);
    DidIs(f(a), mid, good', b, rest);
    DidIs(Then(p, f), s, good', b, rest);
  }

  lemma DidReadMany<T(!new)>(p: Parser<T>, s: Bytes, good: bool, v: T, rest: Bytes)
    requires Shrinks(p) && Did(p, s, good, v, rest)
    ensures ReadMany(p, s).0 == if good then [v] + ReadMany(p, rest).0 else []
    ensures good ==> |rest| < |s|
  {
    DidIs(p, s, good, v, rest);
  }

  function Prepend<T>(vs: seq<T>, r: Read<seq<T>>): Read<seq<T>> {
    match r
    case Got(ws, rest) => Got(vs + ws, rest)
    case Short => Short
    case Corrupt(rest) => Corrupt(rest)
  }

  lemma ManyNone<T>(p: Parser<T>, s: Bytes)
    ensures Many(p, 0)(s) == Got([], s)
  {
  }

  /** A list read starts with its first value. */
  lemma ManyStep<T>(p: Parser<T>, k: nat, s: Bytes)
    requires k > 0
    ensures Many(p, k)(s) == match p(s)
                             case Got(x, t) => Prepend([x], Many(p, k - 1)(t))
                             case Short => Short
                             case Corrupt(t) => Corrupt(t)
  {
    assert Many(p, k) == Cons(p, Many(p, k - 1));
  }

  /** `acc` is what has been read of the k values at s0, and the rest are at s. */
  ghost predicate SoFar<T>(p: Parser<T>, k: nat, s0: Bytes, acc: seq<T>, s: Bytes) {
    |acc| <= k && Many(p, k)(s0) == Prepend(acc, Many(p, k - |acc|)(s))
  }

  lemma SoFarStarts<T(!new)>(p: Parser<T>, k: nat, s: Bytes)
    ensures SoFar(p, k, s, [], s)
  {
    match Many(p, k)(s)
    case Got(ws, rest) => assert [] + ws == ws;
    case Short =>
    case Corrupt(rest) =>
  }

  lemma SoFarStep<T(!new)>(p: Parser<T>, k: nat, s0: Bytes, acc: seq<T>, s: Bytes, good: bool, x: T, rest: Bytes)
    requires |acc| < k && SoFar(p, k, s0, acc, s) && Did(p, s, good, x, rest)
    ensures good ==> SoFar(p, k, s0, acc + [x], rest)
    ensures !good ==> Did(Many(p, k), s0, false, acc + [x], rest)
  {
    DidIs(p, s, good, x, rest);
    DidIs(Many(p, k), s0, false, acc + [x], rest);
    ManyStep(p, k - |acc|, s);
    if good {
      PrependTwice(acc, x, Many(p, k - |acc| - 1)(rest));
    }
  }

  lemma PrependTwice<T>(acc: seq<T>, x: T, r: Read<seq<T>>)
    ensures Prepend(acc, Prepend([x], r)) == Prepend(acc + [x], r)
  {
    match r
    case Got(ws, rest) => assert acc + ([x] + ws) == acc + [x] + ws;
    case Short =>
    case Corrupt(rest) =>
  }

  lemma SoFarEnds<T(!new)>(p: Parser<T>, k: nat, s0: Bytes, acc: seq<T>, s: Bytes)
    requires SoFar(p, k, s0, acc, s) && |acc| == k
    ensures Did(Many(p, k), s0, true, acc, s)
  {
    assert Many(p, 0)(s) == Got([], s);
    assert acc + [] == acc;
  }

  /** The values in a block of 4-byte floats. */
  function FloatsOf(s: Bytes): seq<nat> {
    if |s| < 4 then [] else [FromLe(s[..4])] + FloatsOf(s[4..])
  }

  function Block(k: nat): Parser<seq<nat>> {
    s => if 4 * k <= |s| then Got(FloatsOf(s[..4 * k]), s[4 * k..]) else Short
  }

  /** block(k) reads one value with p and the others as block(k - 1) does. */
  ghost predicate StepsLike<T>(p: Parser<T>, block: nat -> Parser<seq<T>>, k: nat, s: Bytes) {
    k > 0 ==>
      block(k)(s) == match p(s)
                     case Got(x, t) => Prepend([x], block(k - 1)(t))
                     case Short => Short
                     case Corrupt(t) => Corrupt(t)
  }

  /** Anything that steps like reading k values one by one is reading k values one by one. */
  lemma {:induction false} ManyIsBlock<T>(p: Parser<T>, block: nat -> Parser<seq<T>>, k: nat, s: Bytes)
    requires forall s :: block(0)(s) == Got([], s)
    requires forall k, s :: StepsLike(p, block, k, s)
    ensures Many(p, k)(s) == block(k)(s)
  {
    if k == 0 {
      ManyNone(p, s);
    } else {
      ManyStep(p, k, s);
      assert StepsLike(p, block, k, s);
      if p(s).Got? {
        ManyIsBlock(p, block, k - 1, p(s).rest);
      }
    }
  }

  /** Reading k floats one by one is reading their bytes as one block. */
  lemma BlockOfFloats(k: nat, s: Bytes)
    ensures Many(Number(4), k)(s) == Block(k)(s)
  {
    forall s ensures Block(0)(s) == Got([], s) {
      assert s[0..] == s;
    }
    forall k, s ensures StepsLike(Number(4), Block, k, s) {
      if k > 0 {
        BlockSplits(k, s);
      }
    }
    ManyIsBlock<nat>(Number(4), Block, k, s);
  }

  lemma BlockSplits(k: nat, s: Bytes)
    requires k > 0
    ensures Block(k)(s) == if 4 <= |s| then Prepend([FromLe(s[..4])], Block(k - 1)(s[4..])) else Short
  {
    if 4 * k <= |s| {
      assert s[..4 * k][..4] == s[..4] && s[..4 * k][4..] == s[4..][..4 * (k - 1)];
      assert s[4..][4 * (k - 1)..] == s[4 * k..];
    }
  }
}
