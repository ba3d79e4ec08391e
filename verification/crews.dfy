/**
 The three agents the service builds at start-up, as opaque tags, and the
 choice of agent group ("crew") for each accepted task name.
 */
module Crews {

  /** The research analyst, the content writer and the graphic designer. */
  datatype Agent = Researcher | Writer | Designer

  /** An agent group: the set of agents a request runs. */
  type Crew = set<Agent>

  /** The task names the run-tasks handler accepts, in the order it lists them. */
  const AllowedTasks: seq<string> := ["research", "write", "design", "all"]

  /** The only task name that runs every agent. */
  const AllTask: string := "all"

  predicate IsAllowed(task: string) {
    task in AllowedTasks
  }

  /** The task name that runs `a` on its own. */
  function SoloTask(a: Agent): (t: string)
    ensures IsAllowed(t) && t != AllTask
  {
    match a
    case Researcher => "research"
    case Writer => "write"
    case Designer => "design"
  }

  /** The crew the handler builds for an accepted task: every agent for "all",
      and otherwise exactly the one agent whose own task it is. */
  function CrewFor(task: string): (r: Crew)
    requires IsAllowed(task)
    ensures r != {}
    ensures forall a: Agent :: a in r <==> task == AllTask || task == SoloTask(a)
  {
    if task == "all" then {Researcher, Writer, Designer}
    else if task == "research" then {Researcher}
    else if task == "write" then {Writer}
    else {Designer}
  }

  /** Every accepted task other than "all" runs a crew of exactly one agent. */
  lemma SoloCrewIsSingleton(task: string)
    requires IsAllowed(task) && task != AllTask
    ensures |CrewFor(task)| == 1
    ensures exists a: Agent :: CrewFor(task) == {a} && SoloTask(a) == task
  {
  }

  /** The crew for "all" is the union of the single-agent crews. */
  lemma AllCrewIsUnionOfSolos()
    ensures CrewFor(AllTask) == CrewFor("research") + CrewFor("write") + CrewFor("design")
    ensures forall a: Agent :: a in CrewFor(AllTask)
  {
  }
}
