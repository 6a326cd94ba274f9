/**
 * syndicate/runtime: the one channel to the sandbox. Exit codes and output are
 * arbitrary; what the commands really did to the repository shows only in the
 * HEAD that stands behind them.
 */
module Sandbox {
  import opened PyText

  datatype ActionResult = ActionResult(exitCode: int, output: string)

  const REV_PARSE_HEAD := "git rev-parse HEAD"

  class RuntimeClient {
    const isMock: bool
    const reply: (nat, string) -> ActionResult  // what the k-th command gets back
    const head: nat -> Option<string>           // the repository's HEAD when it is issued
    var issued: seq<string>

    constructor (isMock: bool, reply: (nat, string) -> ActionResult, head: nat -> Option<string>)
      ensures this.isMock == isMock && this.reply == reply && this.head == head && issued == []
    {
      this.isMock, this.reply, this.head := isMock, reply, head;
      issued := [];
    }

    function Reply(k: nat, action: string): ActionResult {
      if isMock then MockReply(action) else reply(k, action)
    }

    method RunAction(action: string) returns (r: ActionResult)
      modifies this
      ensures issued == old(issued) + [action]
      ensures r == Reply(|old(issued)|, action)
      ensures r == if isMock then ActionResult(0, "[mock] " + action) else reply(|old(issued)|, action)
    {
      r := if isMock then MockReply(action) else reply(|issued|, action);
      issued := issued + [action];
    }
  }

  /** `MockRuntimeClient.run_action` */
  function MockReply(action: string): ActionResult {
    ActionResult(0, "[mock] " + action)
  }

  /** What `git rev-parse HEAD` said: the stripped output, or nothing when it failed. */
  function ReportedHead(r: ActionResult): Option<string> {
    if r.exitCode == 0 then Some(Strip(r.output)) else None
  }

  lemma HeadIsStrippedOutput(r: ActionResult) returns (i: nat, j: nat)
    ensures r.exitCode != 0 <==> ReportedHead(r) == None
    ensures i <= j <= |r.output| && (r.exitCode == 0 ==> ReportedHead(r) == Some(r.output[i..j]))
    ensures forall k | 0 <= k < i || j <= k < |r.output| :: IsSpace(r.output[k])
    ensures i < j ==> !IsSpace(r.output[i]) && !IsSpace(r.output[j - 1])
  {
    hide IsSpace, Strip;
    i, j := StripIsExact(r.output);
  }

  /** Only `git rev-parse HEAD` is trusted, and only to report the HEAD of that moment. */
  ghost predicate HonestAboutHead(client: RuntimeClient) {
    forall k: nat :: ReportedHead(client.Reply(k, REV_PARSE_HEAD)) == client.head(k)
  }
}
