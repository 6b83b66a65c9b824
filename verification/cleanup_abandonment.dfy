/** A reachable state and a world in which the chain of retries breaks off. */
module CleanupAbandonment {
  import opened Wrappers
  import opened Transactions
  import opened Protocol
  import opened CleanupWorker
  import opened CleanupLimits
  import opened CleanupDriver

  /** The row of an event that has just been requested. */
  const REQUESTED: Event := Event("t", "d", Pending, [], 0, 5, None, None)

  lemma RequestedRun() returns (steps: seq<Step>)
    ensures Initial(Fresh(5)) && Fit(Execute(Fresh(5), steps), "w", "e", "t")
    ensures Execute(Fresh(5), steps).db.events["e"] == REQUESTED
  {
    steps := [];
    Extend(Fresh(5), steps, Register("kb", "f", "h", "", "d"));
    steps := steps + [Register("kb", "f", "h", "", "d")];
    Extend(Fresh(5), steps, Request("d", "t", "e"));
    steps := steps + [Request("d", "t", "e")];
  }

  /** Nobody interferes, the vector store is down, and the audit record of that failure cannot be written. */
  const LOST_AUDIT: World :=
    World(true, true, true, stage => stage != Vectors, stage => true, stage => true,
          true, stage => false, true, 0, "down", k => [])

  lemma LostAuditAbandons()
    ensures Abandons(REQUESTED, "e", "t", LOST_AUDIT, true) && StatusAfter(REQUESTED, "e", "t", LOST_AUDIT) == Retrying
    ensures !FailureIsRaised(REQUESTED, LOST_AUDIT) && FailingStage(REQUESTED, LOST_AUDIT) == 0
  {
    assert StageFails(LOST_AUDIT, 0);
  }

  /** One handler fails, the report is committed with four attempts left, and its audit record is lost: the event
      says RETRYING, and no execution will come back to it. With that record the world would be fair. */
  lemma LostAuditLosesTheChain() returns (s: State, steps: seq<Step>)
    ensures Initial(s) && Fit(Execute(s, steps), "w", "e", "t") && Undisturbed(LOST_AUDIT, "w", "e")
    ensures Fair(LOST_AUDIT.(failureAuditWorks := stage => true))
    ensures var row := Execute(s, steps).db.events["e"];
            && StatusAfter(row, "e", "t", LOST_AUDIT) == Retrying && FateOf(row, "e", "t", LOST_AUDIT, true) == Abandoned
            && row.attempts + 1 < row.maxAttempts
  {
    s := Fresh(5);
    steps := RequestedRun();
    LostAuditAbandons();
  }

  /** The vector store is down and everything else works. */
  const NO_VECTORS: World := LOST_AUDIT.(failureAuditWorks := stage => true)

  /** With five attempts and a queue that allows three retries, the fourth execution is the last one: its failure
      leaves the event in RETRYING with an attempt left. */
  lemma QueueCutsTheChain()
    ensures Fair(NO_VECTORS) && Undisturbed(NO_VECTORS, "w", "e")
    ensures var row := REQUESTED.(status := Retrying, attempts := 3);
            && AsksAgain(row, "e", "t", NO_VECTORS) && StatusAfter(row, "e", "t", NO_VECTORS) == Retrying
            && FateOf(row, "e", "t", NO_VECTORS, 3 < 3) == Abandoned && FateOf(row, "e", "t", NO_VECTORS, 3 < 4) == RunsAgain
  {
    assert StageFails(NO_VECTORS, 0);
  }
}
