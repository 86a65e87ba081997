/** The two authentication callbacks the application hands to the client:
    the rollback policy run on every failed authentication, and the
    troubleshoot-then-confirm sequence run on success. */
module Authentication {
  import opened MenderTypes

  /** The failure callback's function-static `tries` counter. It is 0 when
      the process starts; nothing but a restart of the process resets it. */
  datatype Policy = Policy(tries: nat)

  const Initial: Policy := Policy(0)

  datatype FailureReply = FailureReply(policy: Policy, ret: MenderErr)

  /** authentication_failure_cb. `imageConfirmed` is what
      mender_flash_is_image_confirmed() answers; `maxTries` is the build
      option CONFIG_EXAMPLE_AUTHENTICATION_FAILS_MAX_TRIES. MENDER_FAIL asks
      the client to restart the application, and since the running image is
      then still unconfirmed the bootloader rolls back. */
  function OnFailure(p: Policy, imageConfirmed: bool, maxTries: int): (r: FailureReply)
    // a confirmed image is never rolled back, and the counter stays frozen
    ensures imageConfirmed ==> r == FailureReply(p, MenderOk)
    // an unconfirmed image spends exactly one try
    ensures !imageConfirmed ==> r.policy.tries == p.tries + 1
    // restart is requested exactly when the tries reach the threshold
    ensures r.ret == MenderFail <==> !imageConfirmed && r.policy.tries >= maxTries
    ensures r.ret == MenderOk || r.ret == MenderFail
  {
    if imageConfirmed then
      FailureReply(p, MenderOk)
    else
      var tries := p.tries + 1;
      FailureReply(Policy(tries), if tries >= maxTries then MenderFail else MenderOk)
  }

  /** A call the success callback makes into the client library. */
  datatype Call = TroubleshootActivate | ConfirmImage

  datatype SuccessReply = SuccessReply(calls: seq<Call>, ret: MenderErr)

  /** authentication_success_cb. `troubleshoot` says whether the
      troubleshoot add-on is built in; `activateRet` and `confirmRet` are
      what mender_troubleshoot_activate() and mender_flash_confirm_image()
      return if they are called. The policy counter is not an input: success
      never touches it. */
  function OnSuccess(troubleshoot: bool, activateRet: MenderErr, confirmRet: MenderErr): (r: SuccessReply)
    ensures (TroubleshootActivate in r.calls) == troubleshoot
    // a failed activation stops the callback before the image is confirmed
    ensures ConfirmImage in r.calls <==> !troubleshoot || activateRet == MenderOk
    ensures ConfirmImage !in r.calls ==> r.ret == activateRet && r.ret != MenderOk
    // confirmation, when attempted, comes last and decides the result
    ensures ConfirmImage in r.calls ==> r.calls[|r.calls| - 1] == ConfirmImage && r.ret == confirmRet
    ensures r.ret == MenderOk <==> (!troubleshoot || activateRet == MenderOk) && confirmRet == MenderOk
    ensures forall i, j :: 0 <= i < j < |r.calls| ==> r.calls[i] != r.calls[j]
  {
    if troubleshoot && activateRet != MenderOk then
      SuccessReply([TroubleshootActivate], activateRet)
    else
      SuccessReply((if troubleshoot then [TroubleshootActivate] else []) + [ConfirmImage], confirmRet)
  }

  /** One notification from the client about an authentication attempt. */
  datatype Attempt = Authenticated | Rejected(imageConfirmed: bool)

  /** The counter after the callbacks for a run of attempts. */
  function After(p: Policy, run: seq<Attempt>, maxTries: int): Policy
    decreases |run|
  {
    if run == [] then p
    else
      var p' := if run[0].Rejected? then OnFailure(p, run[0].imageConfirmed, maxTries).policy else p;
      After(p', run[1..], maxTries)
  }

  /** The number of attempts in `run` rejected while the image was unconfirmed. */
  function PendingRejections(run: seq<Attempt>): nat
  {
    if run == [] then 0
    else (if run[0] == Rejected(false) then 1 else 0) + PendingRejections(run[1..])
  }

  /** The counter counts exactly the rejections that arrive while the image
      is unconfirmed: successes and rejections of a confirmed image leave it
      alone, and nothing decreases or resets it. */
  lemma {:induction false} AfterCountsPendingRejections(p: Policy, run: seq<Attempt>, maxTries: int)
    ensures After(p, run, maxTries).tries == p.tries + PendingRejections(run)
    decreases |run|
  {
    if run != [] {
      var p' := if run[0].Rejected? then OnFailure(p, run[0].imageConfirmed, maxTries).policy else p;
      AfterCountsPendingRejections(p', run[1..], maxTries);
    }
  }

  /** Once a rejection has asked for a restart, every later rejection of an
      unconfirmed image asks again, whatever happened in between. */
  lemma FailureIsSticky(p: Policy, run: seq<Attempt>, maxTries: int)
    requires OnFailure(p, false, maxTries).ret == MenderFail
    ensures OnFailure(After(OnFailure(p, false, maxTries).policy, run, maxTries), false, maxTries).ret == MenderFail
  {
    AfterCountsPendingRejections(OnFailure(p, false, maxTries).policy, run, maxTries);
  }

  /** The replies to a run of consecutive failure callbacks, one per entry
      of `confirmed` (the image-confirmed answer at that call). */
  function FailureReplies(p: Policy, confirmed: seq<bool>, maxTries: int): (r: seq<MenderErr>)
    ensures |r| == |confirmed|
    decreases |confirmed|
  {
    if confirmed == [] then []
    else
      var reply := OnFailure(p, confirmed[0], maxTries);
      [reply.ret] + FailureReplies(reply.policy, confirmed[1..], maxTries)
  }

  /** While the image stays unconfirmed, the i-th failure (counting from 0)
      asks for a restart exactly when the counter, which then reads
      p.tries + i + 1, has reached the threshold: the first maxTries - 1
      failures from a fresh process are tolerated, the next one rolls back. */
  lemma {:induction false} RollbackThreshold(p: Policy, confirmed: seq<bool>, maxTries: int)
    requires forall i :: 0 <= i < |confirmed| ==> !confirmed[i]
    ensures forall i :: 0 <= i < |confirmed| ==>
              (FailureReplies(p, confirmed, maxTries)[i] == MenderFail <==> p.tries + i + 1 >= maxTries)
    decreases |confirmed|
  {
    if confirmed != [] {
      var reply := OnFailure(p, confirmed[0], maxTries);
      RollbackThreshold(reply.policy, confirmed[1..], maxTries);
      var rs := FailureReplies(p, confirmed, maxTries);
      forall i | 0 <= i < |confirmed|
        ensures rs[i] == MenderFail <==> p.tries + i + 1 >= maxTries
      {
        if i > 0 {
          assert rs[i] == FailureReplies(reply.policy, confirmed[1..], maxTries)[i - 1];
        }
      }
    }
  }

  /** Three failures of a pending image with a threshold of three: the
      first two are tolerated and the third asks for the restart. */
  lemma ThreeStrikes()
    ensures FailureReplies(Initial, [false, false, false], 3) == [MenderOk, MenderOk, MenderFail]
  {
    RollbackThreshold(Initial, [false, false, false], 3);
  }
}
