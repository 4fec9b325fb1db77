/** mj_host/src/BrainTape.cpp: what the reader makes of a tape that is not one: a wrong magic, an unknown kind, or
    a count over its limit. */
module TapeFaults {
  import opened BrainTape
  import opened Parsers
  import opened Tape

  /** A count above its limit is refused, whatever follows. */
  lemma OversizedCountIsCorrupt(limit: nat, n: nat, rest: Bytes)
    requires limit < n < TWO32
    ensures Count(limit)(Le(n, 4) + rest) == Corrupt(rest)
  {
    PowersOf256();
    ReadsNumber(n, 4);
    assert Number(4)(Le(n, 4) + rest) == Got(n, rest);
  }

  /** And so is a string, or a list, that claims to be longer than allowed. */
  lemma OversizedIsCorrupt<T(!new)>(p: Parser<T>, limit: nat, n: nat, rest: Bytes)
    requires n < TWO32
    ensures n > MAX_STR ==> GetStr()(Le(n, 4) + rest) == Corrupt(rest)
    ensures n > limit ==> List(p, limit)(Le(n, 4) + rest) == Corrupt(rest)
  {
    if n > MAX_STR {
      OversizedCountIsCorrupt(MAX_STR, n, rest);
    }
    if n > limit {
      OversizedCountIsCorrupt(limit, n, rest);
    }
  }

  lemma HeadIsRead(kind: Byte, brain: Byte, rest: Bytes)
    ensures GetRecord()([kind] + ([brain] + rest)) == GetPayload(kind, brain)(rest)
  {
    ReadsByte(kind);
    ReadsByte(brain);
    assert Number(1)([kind] + ([brain] + rest)) == Got(kind, [brain] + rest);
    assert Number(1)([brain] + rest) == Got(brain, rest);
    var head, f := Pair(Number(1), Number(1)), (h: (nat, nat)) => GetPayload(h.0, h.1);
    assert head([kind] + ([brain] + rest)) == Got((kind, brain), rest);
    assert GetRecord()([kind] + ([brain] + rest)) == Then(head, f)([kind] + ([brain] + rest));
  }

  lemma NoSuchPayload(kind: nat, brain: int, rest: Bytes)
    requires kind == 0 || kind > 8
    ensures GetPayload(kind, brain)(rest) == Corrupt(rest)
  {
  }

  /** A record of a kind there is not. */
  lemma UnknownKindIsCorrupt(kind: Byte, brain: Byte, rest: Bytes, s: Bytes)
    requires (kind == 0 || kind > 8) && s == [kind] + ([brain] + rest)
    ensures GetRecord()(s) == Corrupt(rest)
  {
    HeadIsRead(kind, brain, rest);
    NoSuchPayload(kind, brain, rest);
    assert GetRecord()(s) == GetPayload(kind, brain)(rest);
  }

  /** A configuration or a restore whose text claims to be longer than allowed. */
  lemma OversizedTextIsCorrupt(kind: Byte, brain: Byte, n: nat, rest: Bytes)
    requires (kind == 1 || kind == 2) && MAX_STR < n < TWO32
    ensures GetRecord()([kind] + ([brain] + (Le(n, 4) + rest))) == Corrupt(rest)
  {
    HeadIsRead(kind, brain, Le(n, 4) + rest);
    OversizedIsCorrupt(Number(1), MAX_STR, n, rest);
  }

  /** An actions record that claims more actions than allowed. */
  lemma TooManyActionsAreCorrupt(brain: Byte, n: nat, rest: Bytes)
    requires MAX_ACTIONS < n < TWO32
    ensures GetRecord()([7] + ([brain] + (Le(n, 4) + rest))) == Corrupt(rest)
  {
    HeadIsRead(7, brain, Le(n, 4) + rest);
    OversizedIsCorrupt(GetAction(), MAX_ACTIONS, n, rest);
    assert List(GetAction(), MAX_ACTIONS)(Le(n, 4) + rest) == Corrupt(rest);
  }

  lemma {:induction false} ReadManyThenFault<T(!new)>(p: Parser<T>, put: T -> Bytes, vs: seq<T>, tail: Bytes)
    requires Shrinks(p) && ReadsEach(p, put, vs) && p(tail).Corrupt?
    ensures ReadMany(p, PutAll(put, vs) + tail) == (vs, false)
  {
    if vs == [] {
      assert PutAll(put, vs) + tail == tail;
    } else {
      assert vs[0] in vs && forall v :: v in vs[1..] ==> v in vs;
      ReadManyThenFault(p, put, vs[1..], tail);
      var rest := PutAll(put, vs[1..]) + tail;
      assert PutAll(put, vs) + tail == put(vs[0]) + rest;
      ReadManyStep(p, PutAll(put, vs) + tail, vs[0], rest);
      assert [vs[0]] + vs[1..] == vs;
    }
  }

  /** A fault after good records costs none of them: the tape reads as those records, and not as one that merely ended. */
  lemma FaultKeepsWhatCameBefore(rs: seq<Record>, tail: Bytes)
    requires AllFit(rs) && GetRecord()(tail).Corrupt?
    ensures ReadTape(WriteTape(rs) + tail) == (rs, false)
  {
    forall r | r in rs ensures Reads(GetRecord(), Encode(r), r) {
      ReadsRecord(r);
    }
    RecordsShrink();
    ReadManyThenFault<Record>(GetRecord(), Encode, rs, tail);
    assert (MAGIC + EncodeAll(rs)) + tail == MAGIC + (EncodeAll(rs) + tail);
    TapeBody(WriteTape(rs) + tail, EncodeAll(rs) + tail);
  }

  /** A file that does not begin as a tape reads as none. */
  lemma NoMagicNoRecords(file: Bytes)
    requires !(MAGIC <= file)
    ensures ReadTape(file).0 == []
  {
  }
}
