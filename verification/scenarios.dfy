/**
 Concrete request sequences against a fresh service, and what they return.
 */
module Scenarios {
  import opened Text
  import opened Crews
  import opened Service
  import opened Trace

  /** A kickoff that returns, whatever the crew. */
  function Returns(crew: Crew): Outcome { Succeeded }

  /** A kickoff that raises, whatever the crew. */
  function Throws(crew: Crew): Outcome { Raised }

  /** Running "design" on a fresh map confirms it, and its result then reads
      "Completed". */
  lemma DesignRunThenResult()
    ensures RunTasks(map[], "design", Returns).reply ==
              Ok("Task design executed successfully!")
    ensures GetTaskResult(RunTasks(map[], "design", Returns).state, "design") ==
              Ok(TaskReport("design", "Completed"))
  {
    LowerDesign();
    var r := RunTasks(map[], "design", Returns);
    assert r.reply == Ok(SuccessMessage("design"));
    DesignMessage();
    assert r.state == map["design" := Completed];
  }

  lemma DesignMessage()
    ensures SuccessMessage("design") == "Task design executed successfully!"
  {
  }

  lemma LowerDesign()
    ensures Lower("design") == "design"
    ensures Lower("DESIGN") == "design"
  {
    assert NoUpper("design");
    LowerOfNoUpper("design");
    var r := Lower("DESIGN");
    assert r[0] == 'd' && r[1] == 'e' && r[2] == 's' && r[3] == 'i' && r[4] == 'g' && r[5] == 'n';
  }

  /** An unknown task name is refused with 400. */
  lemma BogusTaskRejected(st: State)
    ensures RunTasks(st, "bogus", Returns) ==
              Step(HttpError(400, "Invalid task type"), st)
  {
  }

  /** "DESIGN" is accepted and stored under "design"; looking up "Design"
      afterwards still gives 404. */
  lemma CapitalisedRunLowerCaseLookup()
    ensures RunTasks(map[], "DESIGN", Returns).state == map["design" := "Completed"]
    ensures GetTaskResult(RunTasks(map[], "DESIGN", Returns).state, "Design") ==
              HttpError(404, "Task not found")
  {
    LowerDesign();
    var r := RunTasks(map[], "DESIGN", Returns);
    assert r.state == map["design" := Completed];
    assert "Design" !in r.state;
  }

  /** A raising kickoff leaves the task at "Running..." and the reply is the
      escaped exception. */
  lemma RaisingKickoffStuckRunning()
    ensures RunTasks(map["write" := "Completed"], "write", Throws) ==
              Step(Fault, map["write" := "Running..."])
  {
    LowerOfNoUpper("write");
  }

  /** A task that no accepted run request named is not found, whatever ran. */
  lemma NeverSubmittedNotFound(reqs: seq<Request>, task: string)
    requires task !in Submitted(reqs)
    ensures GetTaskResult(Serve(map[], reqs), task) == HttpError(404, "Task not found")
  {
  }

  /** The task-status reply of a fresh service lists exactly the names ever
      accepted, each with its latest status. */
  lemma StatusReflectsSubmissions(reqs: seq<Request>)
    ensures GetTaskStatus(Serve(map[], reqs)).Keys == Submitted(reqs)
    ensures forall k :: k in Submitted(reqs) ==>
              LastRun(reqs, k).Some? &&
              GetTaskStatus(Serve(map[], reqs))[k] == StatusAfter(LastRun(reqs, k).value)
  {
    ServeKeys(map[], reqs);
    forall k | k in Submitted(reqs)
      ensures LastRun(reqs, k).Some? &&
              GetTaskStatus(Serve(map[], reqs))[k] == StatusAfter(LastRun(reqs, k).value)
    {
      ServeLatestStatus(map[], reqs, k);
    }
  }

  /** "write" is not found before anything has been submitted. */
  lemma WriteNotFoundBeforeSubmission()
    ensures GetTaskResult(Serve(map[], [Status, Result("write")]), "write") ==
              HttpError(404, "Task not found")
  {
  }
}
