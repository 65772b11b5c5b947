/**
 * The part of a parsed DNS message that the cache looks at (cache.go).
 *
 * Wire parsing is done by a library outside the repository, so it enters the model as
 * an arbitrary function from raw bytes to an optional message.
 */
module Dns {
  import opened Options

  newtype byte = x: int | 0 <= x < 0x100
  newtype uint32 = x: int | 0 <= x < 0x1_0000_0000
  newtype int64 = x: int | -0x8000_0000_0000_0000 <= x < 0x8000_0000_0000_0000

  datatype Question = Question(name: string, qtype: nat, qclass: nat)

  /** `Opt` is the EDNS pseudo-record, whose TTL field is not a TTL (RFC 6891, section 6.1.3). */
  datatype Record = Opt(flags: uint32) | Data(ttl: uint32)

  datatype Msg = Msg(question: seq<Question>, answer: seq<Record>, ns: seq<Record>, extra: seq<Record>)

  /** Unpacking of raw bytes: `None` when they are not a DNS message. */
  type Unpacker = seq<byte> -> Option<Msg>

  datatype CacheKey = CacheKey(name: string, qtype: nat, qclass: nat)

  function LowerChar(c: char): char {
    if 'A' <= c <= 'Z' then (c as int + 32) as char else c
  }

  function ToLower(s: string): string {
    seq(|s|, i requires 0 <= i < |s| => LowerChar(s[i]))
  }

  /** extractKey: the first question, its name in lower case. */
  function ExtractKey(unpack: Unpacker, raw: seq<byte>): Option<CacheKey> {
    match unpack(raw)
    case None => None
    case Some(msg) =>
      if |msg.question| == 0 then None
      else var q := msg.question[0]; Some(CacheKey(ToLower(q.name), q.qtype, q.qclass))
  }

  ghost predicate SameIgnoringCase(a: string, b: string) {
    |a| == |b| && forall i :: 0 <= i < |a| ==>
      a[i] == b[i] || ('A' <= a[i] <= 'Z' && b[i] as int == a[i] as int + 32)
                   || ('A' <= b[i] <= 'Z' && a[i] as int == b[i] as int + 32)
  }

  /** Names are case-insensitive (RFC 1035, section 2.3.3): two queries share a key exactly when
      type and class agree and the names differ at most in the case of ASCII letters. */
  lemma KeysIgnoreCase(unpack: Unpacker, q1: seq<byte>, q2: seq<byte>)
    requires ExtractKey(unpack, q1).Some? && ExtractKey(unpack, q2).Some?
    ensures ExtractKey(unpack, q1) == ExtractKey(unpack, q2) <==>
            var a, b := unpack(q1).value.question[0], unpack(q2).value.question[0];
            SameIgnoringCase(a.name, b.name) && a.qtype == b.qtype && a.qclass == b.qclass
  {
    var a, b := unpack(q1).value.question[0], unpack(q2).value.question[0];
    var la, lb := ToLower(a.name), ToLower(b.name);
    if la == lb {
      forall i | 0 <= i < |a.name|
        ensures a.name[i] == b.name[i] || ('A' <= a.name[i] <= 'Z' && b.name[i] as int == a.name[i] as int + 32)
                || ('A' <= b.name[i] <= 'Z' && a.name[i] as int == b.name[i] as int + 32)
      {
        assert |la| == |a.name| && |lb| == |b.name|;
        assert la[i] == lb[i];
        assert LowerChar(a.name[i]) == LowerChar(b.name[i]);
      }
    }
    if SameIgnoringCase(a.name, b.name) {
      assert la == lb;
    }
  }

  /** Every message with a question has a key, and nothing else has. */
  lemma KeysOfQuestions(unpack: Unpacker, raw: seq<byte>)
    ensures ExtractKey(unpack, raw).Some? <==> unpack(raw).Some? && unpack(raw).value.question != []
  {}

  /** The three sections, in the order minTTL visits them. */
  function Sections(msg: Msg): seq<seq<Record>> {
    [msg.answer, msg.ns, msg.extra]
  }

  function Flatten(sections: seq<seq<Record>>): seq<Record> {
    if sections == [] then [] else Flatten(sections[..|sections| - 1]) + sections[|sections| - 1]
  }

  function Records(msg: Msg): seq<Record> {
    Flatten(Sections(msg))
  }

  /** `t` is the least TTL among the records that are not OPT. */
  ghost predicate IsLeastTTL(rrs: seq<Record>, t: int) {
    && (exists i :: 0 <= i < |rrs| && rrs[i].Data? && rrs[i].ttl as int == t)
    && (forall i :: 0 <= i < |rrs| && rrs[i].Data? ==> t <= rrs[i].ttl as int)
  }

  ghost predicate OnlyOpt(rrs: seq<Record>) {
    forall i :: 0 <= i < |rrs| ==> rrs[i].Opt?
  }

  const SECOND: int64 := 1_000_000_000

  /** minTTL as a value in nanoseconds: 0 for bytes that are no message or carry no TTL, and
      otherwise the least TTL of the answer, authority and additional sections. */
  ghost predicate IsMinTTL(unpack: Unpacker, raw: seq<byte>, nanos: int) {
    match unpack(raw)
    case None => nanos == 0
    case Some(msg) =>
      var rrs := msg.answer + msg.ns + msg.extra;
      if OnlyOpt(rrs) then nanos == 0
      else exists t: int :: IsLeastTTL(rrs, t) && nanos == t * 1_000_000_000
  }

  lemma RecordsAreSections(msg: Msg)
    ensures Records(msg) == msg.answer + msg.ns + msg.extra
  {
    var s := Sections(msg);
    assert s[..2] == [msg.answer, msg.ns] && [msg.answer, msg.ns][..1] == [msg.answer] && [msg.answer][..0] == [];
    assert Flatten([msg.answer]) == msg.answer;
    assert Flatten([msg.answer, msg.ns]) == msg.answer + msg.ns;
  }

  /** minTTL as a function, for use in specifications. */
  function LeastTTL(rrs: seq<Record>): Option<uint32> {
    if rrs == [] then None else
      var last := rrs[|rrs| - 1];
      var before := LeastTTL(rrs[..|rrs| - 1]);
      if last.Opt? then before
      else if before.None? || last.ttl < before.value then Some(last.ttl)
      else before
  }

  function MinTTL(unpack: Unpacker, raw: seq<byte>): int {
    match unpack(raw)
    case None => 0
    case Some(msg) =>
      match LeastTTL(Records(msg))
      case None => 0
      case Some(t) => t as int * 1_000_000_000
  }

  lemma {:induction false} LeastTTLIsLeast(rrs: seq<Record>)
    ensures match LeastTTL(rrs)
            case None => OnlyOpt(rrs)
            case Some(t) => IsLeastTTL(rrs, t as int)
  {
    if rrs != [] {
      LeastTTLIsLeast(rrs[..|rrs| - 1]);
      assert forall i :: 0 <= i < |rrs| - 1 ==> rrs[..|rrs| - 1][i] == rrs[i];
      if LeastTTL(rrs[..|rrs| - 1]).Some? {
        var i :| 0 <= i < |rrs| - 1 && rrs[i].Data? && rrs[i].ttl == LeastTTL(rrs[..|rrs| - 1]).value;
        assert rrs[i].Data?;
      }
    }
  }

  /** minTTL is the least TTL over the records that are not OPT, in nanoseconds, or 0 without
      one; the product of a 32-bit TTL and a second fits an int64. */
  lemma MinTTLIsLeast(unpack: Unpacker, raw: seq<byte>)
    ensures IsMinTTL(unpack, raw, MinTTL(unpack, raw))
    ensures 0 <= MinTTL(unpack, raw) < 0x8000_0000_0000_0000
  {
    if unpack(raw).Some? {
      var rrs := Records(unpack(raw).value);
      RecordsAreSections(unpack(raw).value);
      LeastTTLIsLeast(rrs);
      if LeastTTL(rrs).Some? {
        var t := LeastTTL(rrs).value as int;
        assert IsLeastTTL(rrs, t);
      }
    }
  }

  lemma LeastTTLSnoc(rrs: seq<Record>, rr: Record)
    ensures var before := LeastTTL(rrs);
            LeastTTL(rrs + [rr]) ==
            if rr.Opt? then before else if before.None? || rr.ttl < before.value then Some(rr.ttl) else before
  {
    assert (rrs + [rr])[..|rrs|] == rrs;
  }

  /** minTTL's nested loops over the three sections; the product fits an int64. */
  method ComputeMinTTL(unpack: Unpacker, raw: seq<byte>) returns (d: int64)
    ensures d as int == MinTTL(unpack, raw)
  {
    var parsed := unpack(raw);
    if parsed.None? { return 0; }
    var msg := parsed.value;
    var sections := Sections(msg);
    var min: uint32, first := 0, true;
    for i := 0 to |sections|
      invariant LeastTTL(Flatten(sections[..i])) == if first then None else Some(min)
    {
      var rrs := sections[i];
      ghost var before := Flatten(sections[..i]);
      assert before + rrs[..0] == before;
      for j := 0 to |rrs|
        invariant LeastTTL(before + rrs[..j]) == if first then None else Some(min)
      {
        var rr := rrs[j];
        LeastTTLSnoc(before + rrs[..j], rr);
        assert before + rrs[..j + 1] == before + rrs[..j] + [rr];
        if rr.Opt? { continue; }
        if first || rr.ttl < min {
          min := rr.ttl;
          first := false;
        }
      }
      assert rrs[..|rrs|] == rrs;
      assert sections[..i + 1][..i] == sections[..i];
    }
    assert sections[..|sections|] == sections;
    if first { return 0; }
    d := (min as int64) * SECOND;
  }
}
