/**
 * verifyResolver of scanner.go: a connectivity probe, then a challenge whose answer must match.
 * What the network returns and the expected answer are parameters.
 */
module Verify {
  import opened Options
  import opened PoolModel

  datatype Status = Working | Timeout | Error

  datatype VerifyResult = VerifyResult(resolver: Resolver, status: Status, verified: bool, latencyMs: int)

  const IsVerified := (r: VerifyResult) => r.verified
  const IsWorking := (r: VerifyResult) => r.status == Working

  /** A reply to a query, or the kind of failure. */
  datatype Reply = NoReply(timeout: bool) | Reply(length: nat, answers: Option<seq<Answer>>)

  datatype Answer = Txt(data: string) | Other

  /** The shortest DNS message: its header. */
  const HEADER := 12

  /** `k` is the first TXT record and carries the expected answer. */
  ghost predicate FirstTxtIs(answers: seq<Answer>, expected: string, k: nat) {
    k < |answers| && answers[k] == Txt(expected) && forall i :: 0 <= i < k ==> answers[i].Other?
  }

  /** Only the first TXT record of the answer is looked at. */
  method Matches(answers: seq<Answer>, expected: string) returns (matched: bool)
    ensures matched <==> exists k: nat :: FirstTxtIs(answers, expected, k)
  {
    for i := 0 to |answers|
      invariant forall k :: 0 <= k < i ==> answers[k].Other?
    {
      if answers[i].Txt? {
        matched := answers[i].data == expected;
        assert matched ==> FirstTxtIs(answers, expected, i);
        return;
      }
    }
    matched := false;
  }

  /** How one verification comes out.  The status is decided by the probe alone; a resolver is
      verified exactly when the probe and the challenge were answered with at least a header and
      the first TXT record matches. */
  ghost predicate Outcome(r: Resolver, probe: Reply, latencyMs: int, challenge: Reply, expected: string,
                          result: VerifyResult) {
    && result.resolver == r && result.latencyMs == latencyMs
    && result.status == (match probe
                         case NoReply(timeout) => if timeout then Timeout else Error
                         case Reply(length, _) => if length < 12 then Error else Working)
    && (result.verified <==>
        && result.status == Working
        && challenge.Reply? && challenge.length >= 12 && challenge.answers.Some?
        && exists k: nat :: FirstTxtIs(challenge.answers.value, expected, k))
  }

  method VerifyResolver(r: Resolver, probe: Reply, latencyMs: int, challenge: Reply, expected: string)
      returns (result: VerifyResult)
    ensures Outcome(r, probe, latencyMs, challenge, expected, result)
  {
    result := VerifyResult(r, Working, false, latencyMs);
    if probe.NoReply? {
      return result.(status := if probe.timeout then Timeout else Error);
    }
    if probe.length < HEADER {
      return result.(status := Error);
    }
    if challenge.NoReply? || challenge.length < HEADER { return; }
    if challenge.answers.None? { return; }
    var matched := Matches(challenge.answers.value, expected);
    if matched { result := result.(verified := true); }
  }

  /** The results that verifying `r` can have, whatever the network does. */
  ghost predicate Possible(r: Resolver, result: VerifyResult) {
    exists probe: Reply, challenge: Reply, expected: string ::
      Outcome(r, probe, result.latencyMs, challenge, expected, result)
  }

  /** They are exactly those for that resolver in which verified implies WORKING. */
  lemma PossibleExactly(r: Resolver, result: VerifyResult)
    ensures Possible(r, result) <==> result.resolver == r && (result.verified ==> result.status == Working)
  {
    if result.resolver == r && (result.verified ==> result.status == Working) {
      var probe := match result.status
                   case Working => Reply(HEADER, None)
                   case Timeout => NoReply(true)
                   case Error => NoReply(false);
      var challenge := if result.verified then Reply(HEADER, Some([Txt("")])) else NoReply(true);
      if result.verified { assert FirstTxtIs(challenge.answers.value, "", 0); }
      assert Outcome(r, probe, result.latencyMs, challenge, "", result);
    }
  }
}
