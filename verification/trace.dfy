/**
 Sequences of requests served one at a time against the status map, and what
 the map holds after them: the keys are the accepted names ever submitted, each
 with the status its latest run left behind.
 */
module Trace {
  import opened Text
  import opened Crews
  import opened Service

  datatype Option<T> = None | Some(value: T)

  /** One request to the service. A run request carries the outcome its
      kickoff will have. */
  datatype Request =
    | Run(task: string, outcome: Outcome)
    | Status
    | Result(task: string)

  /** The status map after serving one request. */
  function Apply(st: State, req: Request): (st': State)
  {
    match req
    case Run(t, o) => RunTasks(st, t, _ => o).state
    // The two query handlers only read the map.
    case Status => st
    case Result(_) => st
  }

  /** The status map after serving `reqs` in order, starting from `st`. */
  function Serve(st: State, reqs: seq<Request>): (st': State)
    decreases |reqs|
  {
    if |reqs| == 0 then st
    else Apply(Serve(st, reqs[..|reqs| - 1]), reqs[|reqs| - 1])
  }

  /** True iff `req` is a run request that passes validation. */
  predicate Accepted(req: Request) {
    req.Run? && IsAllowed(Lower(req.task))
  }

  /** True iff `req` is a run request accepted under the name `k`. */
  predicate Submits(req: Request, k: string) {
    Accepted(req) && Lower(req.task) == k
  }

  /** The lower-cased names of the accepted run requests in `reqs`. */
  function Submitted(reqs: seq<Request>): (s: set<string>)
  {
    set i | 0 <= i < |reqs| && Accepted(reqs[i]) :: Lower(reqs[i].task)
  }

  /** The kickoff outcome of the latest accepted run of `k` in `reqs`, if any. */
  function LastRun(reqs: seq<Request>, k: string): (o: Option<Outcome>)
    decreases |reqs|
  {
    if |reqs| == 0 then None
    else if Submits(reqs[|reqs| - 1], k) then Some(reqs[|reqs| - 1].outcome)
    else LastRun(reqs[..|reqs| - 1], k)
  }

  /** Every request keeps the map well-formed. */
  lemma {:induction false} ServePreservesWellFormed(st: State, reqs: seq<Request>)
    requires WellFormed(st)
    ensures WellFormed(Serve(st, reqs))
    decreases |reqs|
  {
    if |reqs| > 0 {
      ServePreservesWellFormed(st, reqs[..|reqs| - 1]);
    }
  }

  /** A key is present after `reqs` iff it was present before or some request
      in `reqs` submitted it; nothing ever removes a key. */
  lemma {:induction false} ServeKeys(st: State, reqs: seq<Request>)
    ensures Serve(st, reqs).Keys == st.Keys + Submitted(reqs)
    decreases |reqs|
  {
    if |reqs| > 0 {
      var pre := reqs[..|reqs| - 1];
      var last := reqs[|reqs| - 1];
      ServeKeys(st, pre);
      assert reqs == pre + [last];
      SubmittedSnoc(pre, last);
    }
  }

  lemma SubmittedSnoc(pre: seq<Request>, last: Request)
    ensures Submitted(pre + [last]) ==
              Submitted(pre) + (if Accepted(last) then {Lower(last.task)} else {})
  {
    var reqs := pre + [last];
    forall k | k in Submitted(reqs)
      ensures k in Submitted(pre) || (Accepted(last) && k == Lower(last.task))
    {
      var i :| 0 <= i < |reqs| && Accepted(reqs[i]) && k == Lower(reqs[i].task);
      if i < |pre| {
        assert reqs[i] == pre[i];
      }
    }
    forall k | k in Submitted(pre) ensures k in Submitted(reqs) {
      var i :| 0 <= i < |pre| && Accepted(pre[i]) && k == Lower(pre[i].task);
      assert reqs[i] == pre[i];
    }
    if Accepted(last) {
      assert reqs[|pre|] == last;
    }
  }

  /** After `reqs`, each key's status is the one its latest accepted run left
      behind ("Completed" iff that kickoff returned), and keys that no request
      submitted keep their earlier status. */
  lemma {:induction false} ServeLatestStatus(st: State, reqs: seq<Request>, k: string)
    ensures LastRun(reqs, k).Some? ==>
              k in Serve(st, reqs) && Serve(st, reqs)[k] == StatusAfter(LastRun(reqs, k).value)
    ensures LastRun(reqs, k).None? ==>
              (k in Serve(st, reqs) <==> k in st) &&
              (k in st ==> Serve(st, reqs)[k] == st[k])
    decreases |reqs|
  {
    if |reqs| > 0 {
      ServeLatestStatus(st, reqs[..|reqs| - 1], k);
    }
  }
}
