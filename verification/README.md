# Task-status bookkeeping of the multi-agent HTTP service

The service accepts a task name ("research", "write", "design" or "all") on
`POST /run-tasks`, runs the matching group of AI agents through an
orchestration library, and records each task's status in one process-wide map
from task name to status string. `GET /task-status` returns that map and
`GET /task-result/{task}` returns one entry of it.

This project models that bookkeeping as pure functions over an immutable
`map<string, string>`:

- `Text` — the lower-casing the run-tasks handler applies to the requested name.
- `Crews` — the three agents as opaque tags (`Researcher`, `Writer`,
  `Designer`) and the crew chosen for each accepted name.
- `Service` — the status map, the reply datatype (a value, an HTTP error the
  handler raises, or an exception that escapes it), the three handlers, and the
  invariant `WellFormed`: every key is an accepted name and every value is
  "Running..." or "Completed".
- `Trace` — requests served one after another, and what the map holds after
  any sequence of them.
- `Scenarios` — concrete request sequences and their replies.

The crew's `kickoff` call belongs to the orchestration library and is not
visible. `RunTasks` takes it as a parameter `kickoff: Crew -> Outcome`, which
says for the crew it is handed whether the call returns (`Succeeded`) or raises
(`Raised`). A raising kickoff is not caught by the handler. The reply is then
`Fault` and the task stays at "Running...", because the exception leaves before
the "Completed" write. Running an accepted name again overwrites its entry, so
an entry can go from "Completed" back to "Running..."; the model follows the
code here rather than a strictly linear absent → running → completed life
cycle.

## Model

| member | source | states |
|---|---|---|
| Text.Lower | main.py:82 | the lower-cased name has the same length as the request, each character is the lower-case form of the one at the same position, and no upper-case letter is left |
| Text.LowerIdempotent | main.py:82 | lower-casing an already lower-cased name changes nothing, so a stored key is its own lower-case form |
| Text.LowerOfUpper | main.py:82 | capitalising a name without upper-case letters and lower-casing it again gives the name back |
| Service.RunTasksIgnoresCase | main.py:82-87 | two requested names with the same lower-case form get the same reply and leave the same map |
| Service.CapitalisedTaskAccepted | main.py:82-87 | an accepted name written in capitals is handled exactly as the lower-case name and is recorded under the lower-case key |
| Service.UpperNotAllowed | main.py:84 | no name holding an upper-case letter is one of the four accepted names |
| Crews.SoloTask | main.py:94-99 | each agent has its own accepted task name, and it is not "all" |
| Crews.CrewFor | main.py:90-99 | the crew is never empty, and an agent is in it iff the task is "all" or the task is that agent's own name |
| Crews.SoloCrewIsSingleton | main.py:94-99 | "research", "write" and "design" each run exactly one agent, the one whose name it is |
| Crews.AllCrewIsUnionOfSolos | main.py:90-93 | "all" runs every agent, the union of the three single-agent crews |
| Service.StatusAfter | main.py:101-104 | a returning kickoff leaves "Completed" and a raising one leaves "Running..." |
| Service.SuccessMessage | main.py:106 | the confirmation is "Task ", then the lower-cased name, then " executed successfully!" |
| Service.RunTasks | main.py:80-106 | a name whose lower-case form is not accepted gets 400 "Invalid task type" and leaves the map exactly as it was; otherwise the keys become the old keys plus the lower-cased name, every other entry keeps its value, that entry holds the status its crew's kickoff leaves, the reply is the confirmation iff the kickoff returned and an escaped exception iff it raised, and a well-formed map stays well-formed |
| Service.GetTaskStatus | main.py:109-112 | the reply is the whole map: the same keys, each with the same value |
| Service.GetTaskResult | main.py:115-120 | the reply is 404 "Task not found" iff the name, as given, is not a key; otherwise it is the name with its stored status, so the "Unknown" default is never returned; it never raises anything else |
| Service.WellFormedBound | main.py:66-87 | in a well-formed map the keys are among the four accepted names, so there are at most four entries |
| Service.ResultStatusWritten | main.py:116-120 | on a well-formed map a found task reports "Running..." or "Completed" |
| Service.ResultIsCaseSensitive | main.py:116-120 | on a well-formed map a lookup of a name holding an upper-case letter is always 404, because the lookup does not lower-case |
| Trace.ServePreservesWellFormed | main.py:84-104 | any sequence of requests keeps a well-formed map well-formed |
| Trace.ServeKeys | main.py:84-87 | after a sequence of requests the keys are the old keys plus the lower-cased names of the accepted run requests; no key is ever removed |
| Trace.ServeLatestStatus | main.py:87-104 | after a sequence of requests each name's status is the one its latest accepted run left ("Completed" iff that kickoff returned); a name no accepted run named keeps its earlier entry or absence |
| Scenarios.DesignRunThenResult | main.py:104-120 | running "design" on a fresh service replies "Task design executed successfully!" and its result then reads "Completed" |
| Scenarios.BogusTaskRejected | main.py:84-85 | "bogus" is refused with 400 "Invalid task type" and the map is unchanged |
| Scenarios.CapitalisedRunLowerCaseLookup | main.py:82-87 | "DESIGN" is stored under "design", and a lookup of "Design" afterwards is still 404 |
| Scenarios.RaisingKickoffStuckRunning | main.py:87-104 | re-running a completed "write" whose kickoff raises leaves it at "Running..." and the reply is the escaped exception |
| Scenarios.NeverSubmittedNotFound | main.py:118-119 | on a fresh service, a name that no accepted run request named is 404 whatever requests came before |
| Scenarios.StatusReflectsSubmissions | main.py:109-112 | on a fresh service the task-status reply lists exactly the names ever accepted, each with its latest status |
| Scenarios.WriteNotFoundBeforeSubmission | main.py:118-119 | "write" is 404 before any run request |

## Left out

- Text.Lower: folds only the ASCII letters A-Z. The handler calls Python's Unicode `str.lower()`. Other characters are left as they are, so non-ASCII case mapping is not modelled. Unicode lower-casing does not seem to turn any non-ASCII character into a plain letter of the four names, so acceptance should come out the same, but this is not proved.
- The FastAPI application, the route decorators, the CORS middleware and the constant `health_check` reply (main.py:18-27, 73-76) are HTTP framework plumbing.
- `load_dotenv` and the two API-key assignments (main.py:14-16, 30-31) are process-environment I/O.
- The tool and agent construction and the internals of `Crew(...)` and `kickoff()` (main.py:6-13, 34-63, 91-102) belong to third-party libraries. Agents are opaque tags and kickoff is a success-or-raise parameter.
- `asyncio.sleep(3)` (main.py:101) is timing only. Concurrent requests racing on the map are not modelled either: requests are served one at a time.
- Because the model works one request at a time, the intermediate "Running..." entry of a run that later returns is not visible. Only the map each request leaves behind is modelled.
- The request body's pydantic validation (main.py:69-70) is left to the framework: `task` is always a string here.
