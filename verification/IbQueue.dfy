/** The send side of an InfiniBand queue pair and the flushes of its connection: the counters that
    decide when a connection has drained agree with the history of what was posted and completed. */
module IbQueue {
  import opened PortChannel
  import Service = ProxyService

  /** A work request, of which only signaled ones produce a completion. */
  datatype Request = Request(id: nat, signaled: bool)

  function Signaled(requests: seq<Request>): nat {
    if requests == [] then 0
    else Signaled(requests[..|requests| - 1]) + if requests[|requests| - 1].signaled then 1 else 0
  }

  lemma {:induction false} SignaledConcat(a: seq<Request>, b: seq<Request>)
    ensures Signaled(a + b) == Signaled(a) + Signaled(b)
    decreases |b|
  {
    if b == [] {
      assert a + b == a;
    } else {
      SignaledConcat(a, b[..|b| - 1]);
      assert (a + b)[..|a + b| - 1] == a + b[..|b| - 1];
    }
  }

  /** When every request is signaled, as on a connection, drained means all posted work completed. */
  lemma {:induction false} AllSignaled(requests: seq<Request>)
    requires forall i :: 0 <= i < |requests| ==> requests[i].signaled
    ensures Signaled(requests) == |requests|
  {
    if requests != [] { AllSignaled(requests[..|requests| - 1]); }
  }

  /** What one poll of the completion queue finds: how many completions are there, whether the poll
      itself fails, and whether one of the taken work items failed. */
  datatype Poll = Poll(ready: nat, error: bool, failed: bool)

  function Min(a: nat, b: nat): nat { if a < b then a else b }

  /** How many completions poll `i` takes when `left` are outstanding. */
  function Took(polls: nat -> Poll, max: nat, left: nat, i: nat): (n: nat)
    ensures n <= left
  {
    if polls(i).error then 0 else Min(Min(polls(i).ready, left), max)
  }

  /** What is outstanding after the first `i` polls. */
  function LeftAfter(polls: nat -> Poll, max: nat, left: nat, i: nat): nat {
    if i == 0 then left
    else
      var before := LeftAfter(polls, max, left, i - 1);
      before - Took(polls, max, before, i - 1)
  }

  /** Poll `i` succeeds and takes no failed work item. */
  predicate Clean(polls: nat -> Poll, max: nat, left: nat, i: nat) {
    !polls(i).error && !(polls(i).failed && Took(polls, max, LeftAfter(polls, max, left, i), i) > 0)
  }

  /** Poll `i` is needed, and clean. */
  predicate Useful(polls: nat -> Poll, max: nat, left: nat, i: nat) {
    LeftAfter(polls, max, left, i) > 0 && Clean(polls, max, left, i)
  }

  predicate Polling(polls: nat -> Poll, max: nat, left: nat, n: nat) {
    forall i: nat :: i < n ==> Useful(polls, max, left, i)
  }

  /** How a blocking flush ends. */
  datatype Flushed = Drained | TimedOut | Failed

  /** A flush of `left` outstanding requests may end as `r` after `n` polls: it is drained when nothing
      is left after clean polls in time, it times out when the poll at the deadline is still needed,
      and it fails at a needed poll that fails or, in time, takes a failed item. */
  predicate EndsAs(polls: nat -> Poll, max: nat, left: nat, deadline: nat, r: Flushed, n: nat) {
    match r
    case Drained => n <= deadline && LeftAfter(polls, max, left, n) == 0 && Polling(polls, max, left, n)
    case TimedOut =>
      && n == deadline + 1 && LeftAfter(polls, max, left, deadline) > 0
      && Polling(polls, max, left, deadline) && !polls(deadline).error
    case Failed =>
      && 0 < n <= deadline + 1 && LeftAfter(polls, max, left, n - 1) > 0
      && Polling(polls, max, left, n - 1)
      && (polls(n - 1).error || (n <= deadline && !Clean(polls, max, left, n - 1)))
  }

  /** No flush that goes on past an end has polled usefully. */
  lemma EndsUseless(polls: nat -> Poll, max: nat, left: nat, deadline: nat, r: Flushed, n: nat)
    requires EndsAs(polls, max, left, deadline, r, n)
    ensures r == Drained ==> !Useful(polls, max, left, n)
    ensures r == Failed ==> n > 0 && !Useful(polls, max, left, n - 1)
  {
  }

  /** A flush can end in one way only: the outcome is decided by what the polls find. */
  lemma EndsOnce(polls: nat -> Poll, max: nat, left: nat, deadline: nat, r: Flushed, n: nat, r': Flushed, n': nat)
    requires EndsAs(polls, max, left, deadline, r, n) && EndsAs(polls, max, left, deadline, r', n')
    ensures r == r' && n == n'
  {
    EndsUseless(polls, max, left, deadline, r, n);
    EndsUseless(polls, max, left, deadline, r', n');
  }

  /** What the next needed poll does. */
  lemma NextPoll(polls: nat -> Poll, max: nat, left: nat, deadline: nat, n: nat)
    requires Polling(polls, max, left, n) && LeftAfter(polls, max, left, n) > 0 && n <= deadline
    ensures polls(n).error || (n < deadline && !Clean(polls, max, left, n)) ==>
              EndsAs(polls, max, left, deadline, Failed, n + 1)
    ensures !polls(n).error && n == deadline ==> EndsAs(polls, max, left, deadline, TimedOut, n + 1)
    ensures Clean(polls, max, left, n) ==> Polling(polls, max, left, n + 1)
  {
  }

  class IbQp {
    const maxWrPerSend: nat
    const maxSendCqPollNum: nat
    var sendWrs: seq<Request>
    var numStagedSignaledSend: nat
    var numPostedSignaledSend: nat
    ghost var posted: seq<Request>
    ghost var completed: nat

    /** The staged counter counts the staged requests, and the posted counter is what was posted
        signaled less what has completed. */
    ghost predicate Valid()
      reads this
    {
      && |sendWrs| <= maxWrPerSend
      && numStagedSignaledSend == Signaled(sendWrs)
      && numPostedSignaledSend + completed == Signaled(posted)
    }

    constructor (maxWr: nat, maxPoll: nat)
      ensures Valid() && posted == [] && sendWrs == [] && completed == 0
      ensures maxWrPerSend == maxWr && maxSendCqPollNum == maxPoll
    {
      maxWrPerSend, maxSendCqPollNum := maxWr, maxPoll;
      sendWrs, numStagedSignaledSend, numPostedSignaledSend := [], 0, 0;
      posted, completed := [], 0;
    }

    /** Staging fails, and changes nothing, exactly when the limit is reached. */
    method StageSend(wr: Request) returns (ok: bool)
      requires Valid()
      modifies this`sendWrs, this`numStagedSignaledSend
      ensures Valid() && ok == (|old(sendWrs)| < maxWrPerSend)
      ensures sendWrs == if ok then old(sendWrs) + [wr] else old(sendWrs)
    {
      if |sendWrs| >= maxWrPerSend {
        return false;
      }
      SignaledConcat(sendWrs, [wr]);
      sendWrs := sendWrs + [wr];
      if wr.signaled {
        numStagedSignaledSend := numStagedSignaledSend + 1;
      }
      return true;
    }

    /** Posting moves the staged requests, in order, behind those posted before. */
    method PostSend()
      requires Valid()
      modifies this
      ensures Valid() && sendWrs == [] && posted == old(posted) + old(sendWrs) && completed == old(completed)
    {
      SignaledConcat(posted, sendWrs);
      if |sendWrs| == 0 {
        assert posted + sendWrs == posted;
        return;
      }
      posted := posted + sendWrs;
      sendWrs := [];
      numPostedSignaledSend := numPostedSignaledSend + numStagedSignaledSend;
      numStagedSignaledSend := 0;
    }

    /** Polling takes the completions that are there, at most a fixed number at a time; a failing poll
        takes none. */
    method PollSendCq(poll: Poll) returns (n: int)
      requires Valid() && completed + poll.ready <= Signaled(posted)
      modifies this`numPostedSignaledSend, this`completed
      ensures Valid() && completed == old(completed) + if n > 0 then n else 0
      ensures n == if poll.error then -1 else if poll.ready < maxSendCqPollNum then poll.ready else maxSendCqPollNum
    {
      n := if poll.error then -1 else if poll.ready < maxSendCqPollNum then poll.ready else maxSendCqPollNum;
      if n > 0 {
        numPostedSignaledSend := numPostedSignaledSend - n;
        completed := completed + n;
      }
    }
  }

  class IbConnection {
    /** Null once the queue pair has expired. That cannot happen while the connection is in use: it
        keeps its local endpoint, which owns the pair. So a progress that reports success always means
        completed work. */
    var qp: IbQp?
    var recvThreadError: bool

    /** On a connection every request is signaled, and posted at once. */
    ghost predicate Valid()
      reads this, qp
    {
      qp != null ==>
        && qp.Valid() && qp.sendWrs == [] && qp.maxWrPerSend > 0
        && forall i :: 0 <= i < |qp.posted| ==> qp.posted[i].signaled
    }

    /** The queue pair stands for the connection of the pipeline model. */
    ghost predicate Represents(conn: Conn)
      reads this, qp
    {
      qp != null && conn.async && |conn.posted| == |qp.posted| && conn.polled == qp.completed
    }

    constructor (queuePair: IbQp)
      requires queuePair.Valid() && queuePair.sendWrs == [] && queuePair.posted == [] && queuePair.maxWrPerSend > 0
      ensures Valid() && qp == queuePair && !recvThreadError
    {
      qp, recvThreadError := queuePair, false;
    }

    /** The counter that the flush tests is zero exactly when the pipeline's test holds. */
    lemma DrainedIff(conn: Conn)
      requires Valid() && Represents(conn)
      ensures qp.numPostedSignaledSend == 0 <==> Service.Finished(conn)
    {
      AllSignaled(qp.posted);
    }

    /** A write or a signal: one more request at the end of what is posted. */
    method Post(id: nat, ghost conn: Conn, ghost work: Work)
      requires Valid() && Represents(conn)
      modifies qp
      ensures Valid() && qp.posted == old(qp.posted) + [Request(id, true)]
      ensures Represents(conn.(posted := conn.posted + [work]))
    {
      var ok := qp.StageSend(Request(id, true));
      qp.PostSend();
    }

    /** One attempt to progress a flush. Unless something throws, it reports success exactly when the
        queue pair has expired or every request posted so far has completed; and that is the
        pipeline's test on the connection it stands for. */
    method ProgressFlush(poll: Poll, ghost conn: Conn) returns (threw: bool, done: bool, n: nat)
      requires Valid() && (qp != null ==> Represents(conn) && conn.polled + poll.ready <= |conn.posted|)
      modifies qp
      ensures Valid()
      ensures qp != null ==> Represents(Service.Polled(conn, n))
      ensures threw <==> || recvThreadError
                         || (&& qp != null && old(qp.numPostedSignaledSend) != 0
                             && (poll.error || (poll.failed && poll.ready > 0 && qp.maxSendCqPollNum > 0)))
      ensures !threw ==> (done <==> qp == null || Service.Finished(Service.Polled(conn, n)))
    {
      if qp != null { AllSignaled(qp.posted); }
      if recvThreadError {
        return true, false, 0;
      }
      if qp == null || qp.numPostedSignaledSend == 0 {
        return false, true, 0;
      }
      var wcNum := qp.PollSendCq(poll);
      if wcNum < 0 {
        return true, false, 0;
      }
      if wcNum > 0 && poll.failed {
        return true, false, wcNum;
      }
      return false, qp.numPostedSignaledSend == 0, wcNum;
    }

    /** The requests posted but not completed. */
    ghost function Outstanding(): nat
      reads this, qp
      requires Valid() && qp != null
    {
      AllSignaled(qp.posted);
      |qp.posted| - qp.completed
    }

    /** One poll of a flush: no more completions can be there than requests are outstanding. */
    method PollOnce(poll: Poll) returns (n: int)
      requires Valid() && qp != null
      modifies qp
      ensures Valid() && qp.posted == old(qp.posted) && qp.numPostedSignaledSend == Outstanding()
      ensures n == if poll.error then -1 else Min(Min(poll.ready, old(Outstanding())), qp.maxSendCqPollNum)
      ensures Outstanding() == old(Outstanding()) - if n > 0 then n else 0
    {
      AllSignaled(qp.posted);
      var ready := Min(poll.ready, qp.numPostedSignaledSend);
      n := qp.PollSendCq(poll.(ready := ready));
    }

    /** The blocking flush. `polls` tells what each poll finds, and the timer has run out from poll
        `deadline` on. It is checked after the poll, so a poll that drains the queue too late still
        times out. */
    method Flush(polls: nat -> Poll, deadline: nat) returns (r: Flushed, n: nat)
      requires Valid() && qp != null
      modifies qp
      ensures Valid() && qp.posted == old(qp.posted)
      ensures recvThreadError ==> r == Failed && n == 0 && qp.completed == old(qp.completed)
      ensures !recvThreadError ==>
                && EndsAs(polls, qp.maxSendCqPollNum, old(Outstanding()), deadline, r, n)
                && Outstanding() == LeftAfter(polls, qp.maxSendCqPollNum, old(Outstanding()), n)
    {
      n := 0;
      if recvThreadError {
        return Failed, n;
      }
      ghost var left, max := Outstanding(), qp.maxSendCqPollNum;
      AllSignaled(qp.posted);
      while qp.numPostedSignaledSend != 0
        invariant Valid() && qp.posted == old(qp.posted) && n <= deadline
        invariant qp.numPostedSignaledSend == Outstanding() == LeftAfter(polls, max, left, n)
        invariant Polling(polls, max, left, n)
        decreases deadline - n
      {
        NextPoll(polls, max, left, deadline, n);
        var wcNum := PollOnce(polls(n));
        n := n + 1;
        if wcNum < 0 {
          return Failed, n;
        } else if n - 1 >= deadline {
          return TimedOut, n;
        }
        if wcNum > 0 && polls(n - 1).failed {
          return Failed, n;
        }
      }
      return Drained, n;
    }
  }
}
