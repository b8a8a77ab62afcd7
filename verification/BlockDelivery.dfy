/** Delivering a block to the node: reading submitblock answers and retrying them. */
module BlockDelivery {
  /** The JSON value submitblock returned. */
  datatype Answer = NullAnswer | TextAnswer(text: string) | OtherAnswer

  datatype Disposition = Accepted | Retryable | Refused

  function Classify(a: Answer): Disposition {
    match a
    case NullAnswer => Accepted
    case OtherAnswer => Refused
    case TextAnswer(v) =>
      if v == "duplicate" then Accepted
      else if v == "inconclusive" || v == "duplicate-inconclusive" || v == "" then Retryable
      else Refused
  }

  /** One round trip; `inChain` is what getblockheader would confirm right after it. */
  datatype Attempt = Answered(answer: Answer, inChain: bool) | CallFailed(timedOut: bool, inChain: bool)

  /** The chain is looked up only after a rejection or a timeout. */
  predicate ChainIsAsked(a: Attempt) {
    if a.Answered? then Classify(a.answer) == Refused else a.timedOut
  }

  /** In this attempt the node took the block, said it already had it, or showed it in its best chain. */
  predicate NodeHasBlock(a: Attempt) {
    || (a.Answered? && a.answer in {NullAnswer, TextAnswer("duplicate")})
    || (ChainIsAsked(a) && a.inChain)
  }

  /** Stops the loop with success; `Stops` stops it either way. */
  predicate Succeeds(a: Attempt) {
    match a
    case Answered(answer, inChain) => Classify(answer) == Accepted || (Classify(answer) == Refused && inChain)
    case CallFailed(timedOut, inChain) => timedOut && inChain
  }

  predicate Stops(a: Attempt) {
    Succeeds(a) || (a.Answered? && Classify(a.answer) == Refused)
  }

  /** The verdict of the retry loop on the attempts made before its time window closes. */
  function Delivered(attempts: seq<Attempt>): bool {
    if attempts == [] then false
    else if Stops(attempts[0]) then Succeeds(attempts[0])
    else Delivered(attempts[1..])
  }

  /** Success is reported exactly when the first decisive attempt is a success. */
  lemma {:induction false} DeliveredIffFirstDecisiveSucceeds(attempts: seq<Attempt>)
    ensures Delivered(attempts) <==>
            exists i :: 0 <= i < |attempts| && Succeeds(attempts[i]) && forall j :: 0 <= j < i ==> !Stops(attempts[j])
  {
    if attempts != [] && !Stops(attempts[0]) {
      var rest := attempts[1..];
      DeliveredIffFirstDecisiveSucceeds(rest);
      if Delivered(rest) {
        var i :| 0 <= i < |rest| && Succeeds(rest[i]) && forall j :: 0 <= j < i ==> !Stops(rest[j]);
        assert attempts[i + 1] == rest[i];
        assert forall j :: 0 < j < i + 1 ==> attempts[j] == rest[j - 1];
      }
      if i :| 0 <= i < |attempts| && Succeeds(attempts[i]) && forall j :: 0 <= j < i ==> !Stops(attempts[j]) {
        assert i > 0 && rest[i - 1] == attempts[i];
        assert forall j :: 0 <= j < i - 1 ==> rest[j] == attempts[j + 1];
      }
    }
  }

  /** An attempt is made only while none before it has ended the loop. */
  predicate IsMade(attempts: seq<Attempt>, i: nat) {
    i < |attempts| && forall j :: 0 <= j < i ==> !Stops(attempts[j])
  }

  /** Success is reported exactly when, in an attempt that is really made, the node has the block. */
  lemma DeliveredIffNodeHasBlock(attempts: seq<Attempt>)
    ensures Delivered(attempts) <==> exists i: nat :: IsMade(attempts, i) && NodeHasBlock(attempts[i])
  {
    DeliveredIffFirstDecisiveSucceeds(attempts);
    assert forall i :: 0 <= i < |attempts| ==> Succeeds(attempts[i]) == NodeHasBlock(attempts[i]);
    if i: nat :| i < |attempts| && Succeeds(attempts[i]) && forall j :: 0 <= j < i ==> !Stops(attempts[j]) {
      assert IsMade(attempts, i);
    }
  }

  /** The three replies that leave it open whether the node took the block, and calls that failed without a trace. */
  predicate IsRetried(a: Attempt) {
    match a
    case Answered(answer, _) => answer.TextAnswer? && answer.text in {"inconclusive", "duplicate-inconclusive", ""}
    case CallFailed(timedOut, inChain) => !(timedOut && inChain)
  }

  /** Taken, known already, or found in the chain after any other reply or after a timeout. */
  predicate IsSuccess(a: Attempt) {
    match a
    case Answered(answer, inChain) => answer in {NullAnswer, TextAnswer("duplicate")} || (!IsRetried(a) && inChain)
    case CallFailed(timedOut, inChain) => timedOut && inChain
  }

  /** The retry loop; it makes no attempt after a decisive one. */
  method SubmitBlockWithFastRetry(attempts: seq<Attempt>) returns (ok: bool, made: nat)
    ensures ok == Delivered(attempts)
    ensures made <= |attempts| && forall j :: 0 <= j < made - 1 ==> !Stops(attempts[j])
    ensures ok ==> made > 0 && Succeeds(attempts[made - 1])
    ensures forall j :: 0 <= j < made - 1 ==> IsRetried(attempts[j])
    ensures made < |attempts| ==> made > 0 && !IsRetried(attempts[made - 1])
    ensures ok <==> made > 0 && IsSuccess(attempts[made - 1])
  {
    ok, made := false, 0;
    while made < |attempts|
      invariant made <= |attempts| && !ok
      invariant forall j :: 0 <= j < made ==> !Stops(attempts[j]) && IsRetried(attempts[j])
      invariant Delivered(attempts) == Delivered(attempts[made..])
    {
      var attempt := attempts[made];
      made := made + 1;
      match attempt {
        case Answered(answer, inChain) =>
          match Classify(answer) {
            case Accepted => return true, made;
            case Refused => return inChain, made;
            case Retryable =>
          }
        case CallFailed(timedOut, inChain) =>
          if timedOut && inChain {
            return true, made;
          }
      }
      assert attempts[made - 1..][1..] == attempts[made..];
    }
  }
}
