/**
 The task-status bookkeeping of the HTTP service: the process-wide map from
 task name to status string, and the three handlers that read or write it.

 Each handler is a pure function from the map before the request to its reply
 and, for run-tasks, the map after it. The agent group's `kickoff` is not
 visible here; it is a parameter that says, for the crew it is given, whether
 the call returns or raises.
 */
module Service {
  import opened Text
  import opened Crews

  /** The status map: task name to status string. */
  type State = map<string, string>

  const Running: string := "Running..."
  const Completed: string := "Completed"

  const InvalidTaskDetail: string := "Invalid task type"
  const NotFoundDetail: string := "Task not found"

  /** What the opaque `kickoff` call does: return normally or raise. */
  datatype Outcome = Succeeded | Raised

  /** The reply to a request: a value, an HTTP error raised on purpose by the
      handler, or an exception that escapes the handler unhandled. */
  datatype Reply<T> = Ok(value: T) | HttpError(status: nat, detail: string) | Fault

  /** The body of a task-result reply. */
  datatype TaskReport = TaskReport(task: string, status: string)

  /** A reply together with the status map the request leaves behind. */
  datatype Step = Step(reply: Reply<string>, state: State)

  /** The invariant every handler keeps: only accepted task names are keys,
      and every value is one of the two statuses the handler writes. */
  predicate WellFormed(st: State) {
    forall k :: k in st ==> IsAllowed(k) && (st[k] == Running || st[k] == Completed)
  }

  /** The status left behind by a kickoff with outcome `o`. */
  function StatusAfter(o: Outcome): (s: string)
    ensures o == Succeeded <==> s == Completed
    ensures o == Raised <==> s == Running
  {
    match o
    case Succeeded => Completed
    case Raised => Running
  }

  /** The confirmation a successful run returns for the lower-cased `task`. */
  function SuccessMessage(task: string): (m: string)
    ensures |m| == |task| + 28
    ensures m[..5] == "Task " && m[5..5 + |task|] == task
    ensures m[5 + |task|..] == " executed successfully!"
  {
    "Task " + task + " executed successfully!"
  }

  /** POST /run-tasks. The requested name is lower-cased, rejected with 400 if
      it is not an accepted task, otherwise marked running; the crew chosen for
      it is kicked off and, when that returns, the task is marked completed.
      A raising kickoff escapes the handler and leaves the task running. */
  function RunTasks(st: State, requested: string, kickoff: Crew -> Outcome): (r: Step)
    // Rejection: 400, and the map is exactly as before.
    ensures !IsAllowed(Lower(requested)) <==> r.reply.HttpError?
    ensures !IsAllowed(Lower(requested)) ==>
              r.reply == HttpError(400, InvalidTaskDetail) && r.state == st
    // Acceptance: the one key written is the lower-cased name ...
    ensures IsAllowed(Lower(requested)) ==>
              r.state.Keys == st.Keys + {Lower(requested)}
    ensures IsAllowed(Lower(requested)) ==>
              forall k :: k in st && k != Lower(requested) ==> r.state[k] == st[k]
    // ... and its status and the reply follow the kickoff of its crew.
    ensures IsAllowed(Lower(requested)) ==>
              r.state[Lower(requested)] == StatusAfter(kickoff(CrewFor(Lower(requested))))
    ensures IsAllowed(Lower(requested)) ==>
              (r.reply.Ok? <==> kickoff(CrewFor(Lower(requested))) == Succeeded)
    ensures r.reply.Ok? ==> r.reply.value == SuccessMessage(Lower(requested))
    ensures r.reply.Fault? <==>
              IsAllowed(Lower(requested)) && kickoff(CrewFor(Lower(requested))) == Raised
    ensures WellFormed(st) ==> WellFormed(r.state)
  {
    var task := Lower(requested);
    if !IsAllowed(task) then
      Step(HttpError(400, InvalidTaskDetail), st)
    else
      var marked := st[task := Running];
      var crew := CrewFor(task);
      match kickoff(crew)
      case Raised => Step(Fault, marked)
      case Succeeded => Step(Ok(SuccessMessage(task)), marked[task := Completed])
  }

  /** GET /task-status: the whole map, as it is. */
  function GetTaskStatus(st: State): (r: State)
    ensures r.Keys == st.Keys
    ensures forall k :: k in r ==> r[k] == st[k]
  {
    st
  }

  /** GET /task-result/{task}: the status of `task`, looked up as given (not
      lower-cased), or 404 when it is not a key. The lookup's "Unknown"
      default is never reached. */
  function GetTaskResult(st: State, task: string): (r: Reply<TaskReport>)
    ensures r.HttpError? <==> task !in st
    ensures !r.Fault?
    ensures task !in st ==> r == HttpError(404, NotFoundDetail)
    ensures task in st ==> r == Ok(TaskReport(task, st[task]))
  {
    if task !in st then HttpError(404, NotFoundDetail)
    else Ok(TaskReport(task, if task in st then st[task] else "Unknown"))
  }

  /** A well-formed map has at most one entry per accepted task name. */
  lemma WellFormedBound(st: State)
    requires WellFormed(st)
    ensures st.Keys <= set t | t in AllowedTasks
    ensures |st| <= 4
  {
    var allowed := set t | t in AllowedTasks;
    assert allowed == {"research", "write", "design", "all"};
    assert |allowed| == 4;
    SubsetCard(st.Keys, allowed);
  }

  /** A subset is no larger than its superset. */
  lemma {:induction false} SubsetCard<T>(a: set<T>, b: set<T>)
    requires a <= b
    ensures |a| <= |b|
    decreases |b|
  {
    if a != {} {
      var x :| x in a;
      SubsetCard(a - {x}, b - {x});
    }
  }

  /** On a well-formed map the task-result reply reports one of the two
      statuses the run-tasks handler writes. */
  lemma ResultStatusWritten(st: State, task: string)
    requires WellFormed(st)
    ensures GetTaskResult(st, task).Ok? ==>
              GetTaskResult(st, task).value.status in {Running, Completed}
  {
  }

  /** No accepted task name holds an upper-case letter. */
  lemma UpperNotAllowed(task: string)
    requires !NoUpper(task)
    ensures !IsAllowed(task)
  {
  }

  /** The task-result lookup is case-sensitive: on a well-formed map a name
      with an upper-case letter is never found, whatever has run. */
  lemma ResultIsCaseSensitive(st: State, task: string)
    requires WellFormed(st)
    requires !NoUpper(task)
    ensures GetTaskResult(st, task) == HttpError(404, NotFoundDetail)
  {
  }

  /** Two requested names with the same lower-case form are handled alike. */
  lemma RunTasksIgnoresCase(st: State, a: string, b: string, kickoff: Crew -> Outcome)
    requires Lower(a) == Lower(b)
    ensures RunTasks(st, a, kickoff) == RunTasks(st, b, kickoff)
  {
  }

  /** An accepted name written in capitals is accepted and recorded under its
      lower-case key, with the lower-case name in the message. */
  lemma CapitalisedTaskAccepted(st: State, task: string, kickoff: Crew -> Outcome)
    requires IsAllowed(task)
    ensures RunTasks(st, Upper(task), kickoff) == RunTasks(st, task, kickoff)
    ensures task in RunTasks(st, Upper(task), kickoff).state
  {
    assert NoUpper(task);
    LowerOfUpper(task);
    LowerOfNoUpper(task);
  }
}
