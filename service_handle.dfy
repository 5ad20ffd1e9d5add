/** The completion rule of `ServiceHandle`, the future that `Service::spawn`
    returns: it owns the relay task and the server task and, each time it is
    polled, polls the relay task first and hands back its result as soon as that
    task has finished; only while the relay task is still running does it poll
    the server task, and then it hands back whatever that poll gave.

    The task machinery (wakers, pinning, the scheduler) is not modelled: a poll
    of a task is given as a value, and the model records which tasks one poll of
    the handle looked at. */
module ServiceHandle {

  /** Why a joined task produced no value: it was cancelled or it panicked. */
  datatype JoinError = Cancelled | Panicked

  /** `Result<(), JoinError>`, the output of a joined task and of the handle. */
  datatype TaskOutput = Ok | Err(error: JoinError)

  datatype Poll = Ready(output: TaskOutput) | Pending

  datatype Task = RelayTask | ServerTask

  /** What one poll of the handle returns, and the tasks it polled, in order. */
  datatype HandlePoll = HandlePoll(result: Poll, polled: seq<Task>)

  /** One poll of the handle, given what polling the relay task and what polling
      the server task would return. */
  function PollHandle(relay: Poll, server: Poll): (r: HandlePoll)
    ensures |r.polled| == (if relay.Ready? then 1 else 2) && r.polled[0] == RelayTask
    ensures ServerTask in r.polled <==> relay.Pending?
    ensures relay.Ready? ==> r.result == relay
    ensures relay.Pending? ==> r.result == server
    ensures r.result.Pending? <==> relay.Pending? && server.Pending?
  {
    if relay.Ready? then HandlePoll(relay, [RelayTask])
    else HandlePoll(server, [RelayTask, ServerTask])
  }

  /** Reference definition of a race with fixed priority: the first result in
      `polls` that is ready, or `Pending` when none is. */
  function FirstReady(polls: seq<Poll>): (r: Poll)
    ensures r.Ready? ==> r in polls
    ensures r.Pending? <==> forall i :: 0 <= i < |polls| ==> polls[i].Pending?
  {
    if polls == [] then Pending
    else if polls[0].Ready? then polls[0]
    else FirstReady(polls[1..])
  }

  /** `FirstReady` picks the earliest ready result: every result before it is
      pending. */
  lemma {:induction false} FirstReadyIsEarliest(polls: seq<Poll>, i: nat)
    requires i < |polls| && polls[i].Ready?
    requires forall j :: 0 <= j < i ==> polls[j].Pending?
    ensures FirstReady(polls) == polls[i]
  {
    if i > 0 {
      FirstReadyIsEarliest(polls[1..], i - 1);
    }
  }

  /** The handle resolves like a race between the relay task and the server task
      in which the relay task has priority. */
  lemma PollHandleIsPriorityRace(relay: Poll, server: Poll)
    ensures PollHandle(relay, server).result == FirstReady([relay, server])
  {
    if relay.Pending? {
      assert [relay, server][1..] == [server];
      assert [server][1..] == [];
    }
  }

  /** A relay task that failed wins over a server task that is still running:
      the handle reports the relay's join error at once and never polls the
      server. */
  lemma RelayErrorWinsOverPendingServer(e: JoinError)
    ensures PollHandle(Ready(Err(e)), Pending) == HandlePoll(Ready(Err(e)), [RelayTask])
  {
  }
}
