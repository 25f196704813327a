/**
 * ExecutorDelivery: responses and errors are posted as tasks to the main
 * thread's executor, which runs them in posting order. Running a task
 * finishes a canceled request without any callback; otherwise it invokes
 * exactly one of deliverResponse and deliverError, finishes the request
 * unless the response is intermediate, and only then runs the attached
 * runnable.
 */
module ExecutorDelivery {
  import opened Base
  import opened Messages
  import opened Request
  import opened RequestQueue

  /** The only runnable the engine attaches: re-queueing a soft-expired cache hit for the network. */
  datatype Runnable = PutOnNetworkQueue(ticket: Ticket)

  /** A ResponseDeliveryRunnable posted but not yet run. */
  datatype Task = Task(req: Request, response: Response, runnable: Option<Runnable>)

  /** A callback a task invoked on its request. */
  datatype Call = ResponseCall(req: Request, value: Value) | ErrorCall(req: Request, error: VolleyError)

  /** The callback for a task: deliverResponse on success, deliverError otherwise. */
  function CallFor(t: Task): (c: Call)
    ensures c.req == t.req
    ensures t.response.IsSuccess() <==> c.ResponseCall?
    ensures c.ResponseCall? ==> c.value == t.response.outcome.value
    ensures c.ErrorCall? ==> c.error == t.response.outcome.error
  {
    match t.response.outcome
    case Succeeded(v) => ResponseCall(t.req, v)
    case Failed(e) => ErrorCall(t.req, e)
  }

  /** What r's listeners hear when a task with this outcome is delivered. */
  function Heard(r: Request, outcome: Outcome): (ns: seq<Notice>)
    ensures |ns| <= 1
    ensures outcome.Failed? && !r.hasListener ==> ns == []
    ensures outcome.Succeeded? && !r.kind.Download? ==> ns == [ResponseHeard(outcome.value)]
  {
    match outcome
    case Succeeded(v) =>
      if !r.kind.Download? then [ResponseHeard(v)]
      else if r.hasListener then [DownloadFinished(r.url, r.kind.filePath)]
      else []
    case Failed(e) =>
      if !r.hasListener then []
      else if r.kind.Download? then [DownloadFailed(r.url, e)]
      else [ErrorHeard(e)]
  }

  /**
   * The queue after a task has run, given the request's flags when it
   * ran: finish happens when canceled or on a final response, and the
   * runnable only when not canceled.
   */
  function AfterRun(s: QueueState, t: Task, canceled: bool, attached: bool, shouldCache: bool): QueueState {
    var finished := if attached then Finished(s, t.req, shouldCache) else s;
    if canceled then finished
    else
      var s1 := if t.response.intermediate then s else finished;
      match t.runnable
      case None => s1
      case Some(PutOnNetworkQueue(ticket)) => s1.(networkQueue := s1.networkQueue + [ticket])
  }

  /** A canceled request's task finishes it and skips the runnable: the network queue is untouched. */
  lemma CanceledTaskSkipsRunnable(s: QueueState, t: Task, attached: bool, shouldCache: bool)
    ensures AfterRun(s, t, true, attached, shouldCache).networkQueue == s.networkQueue
    ensures attached ==> t.req !in AfterRun(s, t, true, attached, shouldCache).current
  {
  }

  /**
   * An intermediate response leaves the request current (it is not
   * finished) and its runnable puts the ticket on the network queue; a
   * final one finishes it.
   */
  lemma IntermediateKeepsRequestInFlight(s: QueueState, t: Task, attached: bool, shouldCache: bool)
    requires t.response.intermediate && t.runnable.Some?
    ensures var s2 := AfterRun(s, t, false, attached, shouldCache);
      s2.current == s.current && s2.waiting == s.waiting && s2.cacheQueue == s.cacheQueue &&
      s2.networkQueue == s.networkQueue + [t.runnable.value.ticket]
  {
  }

  lemma FinalResponseFinishes(s: QueueState, t: Task, shouldCache: bool)
    requires !t.response.intermediate && t.runnable.None?
    ensures AfterRun(s, t, false, true, shouldCache) == Finished(s, t.req, shouldCache)
    ensures t.req !in AfterRun(s, t, false, true, shouldCache).current
  {
  }

  class ExecutorDelivery {
    /** Tasks posted to the main thread and not yet run, oldest first. */
    var tasks: seq<Task>
    /** The callbacks run so far, in order. */
    var calls: seq<Call>

    constructor ()
      ensures tasks == [] && calls == []
    {
      tasks := [];
      calls := [];
    }

    /** postResponse(request, response, runnable): marks the request delivered, then posts. */
    method PostResponseThen(r: Request, response: Response, runnable: Option<Runnable>)
      modifies this`tasks, r`responseDelivered
      ensures r.responseDelivered
      ensures tasks == old(tasks) + [Task(r, response, runnable)]
    {
      r.MarkDelivered();
      tasks := tasks + [Task(r, response, runnable)];
    }

    /** postResponse(request, response). */
    method PostResponse(r: Request, response: Response)
      modifies this`tasks, r`responseDelivered
      ensures r.responseDelivered
      ensures tasks == old(tasks) + [Task(r, response, None)]
    {
      PostResponseThen(r, response, None);
    }

    /** postError: posts Response.error(error); the request is not marked delivered. */
    method PostError(r: Request, error: VolleyError)
      modifies this`tasks
      ensures tasks == old(tasks) + [Task(r, ErrorResponse(error), None)]
    {
      tasks := tasks + [Task(r, ErrorResponse(error), None)];
    }

    /** The main thread runs the oldest posted task (ResponseDeliveryRunnable.run). */
    method RunNext(q: RequestQueue)
      requires |tasks| > 0
      modifies this, q, tasks[0].req`notices
      ensures tasks == old(tasks[1..])
      ensures var t := old(tasks[0]);
        q.State() == AfterRun(old(q.State()), t, t.req.canceled, t.req.attached, t.req.shouldCache)
      ensures var t := old(tasks[0]);
        t.req.canceled ==> calls == old(calls) && t.req.notices == old(t.req.notices)
      ensures var t := old(tasks[0]);
        !t.req.canceled ==> calls == old(calls) + [CallFor(t)] &&
                            t.req.notices == old(t.req.notices) + Heard(t.req, t.response.outcome)
    {
      var t := tasks[0];
      tasks := tasks[1..];
      var r := t.req;
      if r.canceled {
        FinishRequest(q, r);
        return;
      }
      match t.response.outcome {
        case Succeeded(v) =>
          r.DeliverResponse(v);
        case Failed(e) =>
          r.DeliverError(e);
      }
      calls := calls + [CallFor(t)];
      if !t.response.intermediate {
        FinishRequest(q, r);
      }
      match t.runnable {
        case Some(PutOnNetworkQueue(ticket)) =>
          q.PutNetwork(ticket);
        case None =>
      }
    }
  }
}
