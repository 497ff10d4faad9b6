// The yloop event loop of AliOS-things: a per-task context holding the
// readable sockets it polls and an ascending list of delayed actions.
// Callbacks, the clock and poll(2) are outside the model: the clock and the
// poll outcome arrive as parameters, and a callback that would run is
// recorded as an Event instead of being executed.
module YLoop {

  const EINVAL: int := 22
  const ENOMEM: int := 12
  /** The null callback pointer. */
  const NULL: int := 0
  /** Width of the uint8_t fields max_sock and reader_count. */
  const BYTE: int := 256

  /** One registered readable socket (yloop_sock_t). */
  datatype Reader = Reader(sock: int, privateData: int, cb: int)

  /** One delayed action (yloop_timeout_t); deadline is timeout_ms. */
  datatype Timeout = Timeout(deadline: int, privateData: int, cb: int, ms: int)

  /** What the environment answers to one pass of the loop: the clock before
      poll, poll's result (and whether a failure was EINTR), the clock after
      poll, and the reader slots whose revents carry POLLIN. */
  datatype PollStep = PollStep(nowBefore: int, res: int, interrupted: bool, nowAfter: int, readable: set<nat>)

  /** A callback the loop invokes. */
  datatype Event =
    | TimeoutFired(cb: int, privateData: int)
    | ReadReady(sock: int, privateData: int, cb: int)

  /** Why LoopRun returned. OutOfSteps means the supplied environment ran
      out while the loop would have gone on polling. */
  datatype LoopExit = Drained | Terminated | PollFailed | OutOfSteps

  // ---------------------------------------------------------------------
  // Delayed actions: an ascending list of deadlines.

  ghost predicate Ascending(ts: seq<Timeout>)
  {
    forall i, j :: 0 <= i < j < |ts| ==> ts[i].deadline <= ts[j].deadline
  }

  /** Where a new deadline d goes: before the first entry whose deadline is
      strictly later, hence after every entry with an equal deadline. */
  function InsertPos(ts: seq<Timeout>, d: int): (p: nat)
    ensures p <= |ts|
    ensures forall i :: 0 <= i < p ==> ts[i].deadline <= d
    ensures p < |ts| ==> d < ts[p].deadline
  {
    if ts == [] || d < ts[0].deadline then 0 else 1 + InsertPos(ts[1..], d)
  }

  /** Inserting at InsertPos keeps the list ascending. */
  lemma {:induction false} InsertKeepsAscending(ts: seq<Timeout>, t: Timeout)
    requires Ascending(ts)
    ensures Ascending(ts[..InsertPos(ts, t.deadline)] + [t] + ts[InsertPos(ts, t.deadline)..])
  {
    var p := InsertPos(ts, t.deadline);
    var r := ts[..p] + [t] + ts[p..];
    forall i, j | 0 <= i < j < |r| ensures r[i].deadline <= r[j].deadline {
      if j < p {
        assert r[i] == ts[i] && r[j] == ts[j];
      } else if j == p {
        assert r[i] == ts[i] && r[j] == t;
      } else if i < p {
        assert r[i] == ts[i] && r[j] == ts[j - 1];
      } else if i == p {
        assert r[i] == t && r[j] == ts[j - 1];
        assert ts[p].deadline <= ts[j - 1].deadline;
      } else {
        assert r[i] == ts[i - 1] && r[j] == ts[j - 1];
      }
    }
  }

  /** Removing any entry keeps the list ascending. */
  lemma RemoveKeepsAscending(ts: seq<Timeout>, i: nat)
    requires Ascending(ts) && i < |ts|
    ensures Ascending(ts[..i] + ts[i + 1..])
  {
    var r := ts[..i] + ts[i + 1..];
    forall a, b | 0 <= a < b < |r| ensures r[a].deadline <= r[b].deadline {
      var a' := if a < i then a else a + 1;
      var b' := if b < i then b else b + 1;
      assert r[a] == ts[a'] && r[b] == ts[b'];
    }
  }

  /** The cancellation filter: ms == -1 matches any period. */
  predicate Matches(t: Timeout, ms: int, cb: int, privateData: int)
  {
    (ms == -1 || t.ms == ms) && t.cb == cb && t.privateData == privateData
  }

  /** The first entry that the cancellation filter accepts, or |ts|. */
  function FirstMatch(ts: seq<Timeout>, ms: int, cb: int, privateData: int): (i: nat)
    ensures i <= |ts|
    ensures forall j :: 0 <= j < i ==> !Matches(ts[j], ms, cb, privateData)
    ensures i < |ts| ==> Matches(ts[i], ms, cb, privateData)
  {
    if ts == [] || Matches(ts[0], ms, cb, privateData) then 0
    else 1 + FirstMatch(ts[1..], ms, cb, privateData)
  }

  /** The timeout handed to poll: -1 (wait for ever) without delayed
      actions, otherwise the time left until the earliest deadline, never
      negative. */
  function PollDelay(ts: seq<Timeout>, now: int): (d: int)
    ensures ts == [] <==> d == -1
    ensures ts != [] ==> d >= 0 && (d == 0 <==> now >= ts[0].deadline)
    ensures ts != [] && d > 0 ==> now + d == ts[0].deadline
  {
    if ts == [] then -1
    else if now < ts[0].deadline then ts[0].deadline - now
    else 0
  }

  // ---------------------------------------------------------------------
  // Readers.

  /** The first registered reader on socket sock, or |rs|. */
  function FindReader(rs: seq<Reader>, sock: int): (i: nat)
    ensures i <= |rs|
    ensures forall j :: 0 <= j < i ==> rs[j].sock != sock
    ensures i < |rs| ==> rs[i].sock == sock
  {
    if rs == [] || rs[0].sock == sock then 0 else 1 + FindReader(rs[1..], sock)
  }

  /** The registration as the source writes it, with reader_count a uint8_t:
      the new readers array holds the old count's entries plus the new one,
      and the count wraps modulo 256. Returns (array contents, new count). */
  function RegisterAsWritten(arr: seq<Reader>, count: nat, r: Reader): (res: (seq<Reader>, nat))
    requires count <= |arr| && count < BYTE
    ensures res.1 < BYTE && |res.0| == count + 1
    ensures res.1 == count + 1 || (count == BYTE - 1 && res.1 == 0)
  {
    (arr[..count] + [r], (count + 1) % BYTE)
  }

  /** The 256th registration leaves reader_count at 0: aos_loop_run then polls
      no reader at all, and the next registration copies none of the 256
      stored readers into its new array. */
  lemma RegisterAsWrittenLosesReaders(arr: seq<Reader>, r: Reader, r2: Reader)
    requires |arr| == BYTE - 1
    ensures var (arr1, c1) := RegisterAsWritten(arr, BYTE - 1, r);
            |arr1| == BYTE && c1 == 0 && arr1[..c1] == [] &&
            RegisterAsWritten(arr1, c1, r2).0 == [r2]
  {
  }

  // ---------------------------------------------------------------------
  // The loop context (yloop_ctx_t).

  class Loop {
    /** readers[..readerCount] are the registered readers. */
    var readers: array<Reader>
    var readerCount: nat
    /** uint8_t: keeps the low eight bits of the largest socket seen. */
    var maxSock: nat
    var timeouts: seq<Timeout>
    var terminate: bool
    var eventfd: int

    ghost predicate Valid()
      reads this
    {
      readerCount <= readers.Length && maxSock < BYTE
    }

    ghost function Registered(): seq<Reader>
      reads this, readers
      requires Valid()
    {
      readers[..readerCount]
    }

    /** aos_loop_init: a zeroed context with an empty timeout list and no
        event fd. */
    constructor ()
      ensures Valid() && Registered() == [] && timeouts == []
      ensures !terminate && maxSock == 0 && eventfd == -1
    {
      readers := new Reader[0];
      readerCount := 0;
      maxSock := 0;
      timeouts := [];
      terminate := false;
      eventfd := -1;
    }

    /** aos_loop_exit. */
    method Exit()
      modifies this`terminate
      ensures terminate
    {
      terminate := true;
    }

    /** aos_poll_read_fd: append a reader to a freshly allocated, one longer
        array. allocOk is the outcome of the two allocations. The count does
        not wrap here (see RegisterAsWritten for the uint8_t original). */
    method PollReadFd(sock: int, cb: int, privateData: int, allocOk: bool) returns (r: int)
      requires Valid()
      modifies this`readers, this`readerCount, this`maxSock
      ensures Valid()
      ensures sock < 0 ==> r == -EINVAL
      ensures sock >= 0 && !allocOk ==> r == -ENOMEM
      ensures r != 0 ==> readers == old(readers) && readerCount == old(readerCount) && maxSock == old(maxSock)
      ensures sock >= 0 && allocOk ==> r == 0 && fresh(readers)
      ensures r == 0 ==> Registered() == old(Registered()) + [Reader(sock, privateData, cb)]
      ensures r == 0 ==> maxSock == if sock > old(maxSock) then sock % BYTE else old(maxSock)
    {
      if sock < 0 {
        return -EINVAL;
      }
      var cnt := readerCount + 1;
      if !allocOk {
        return -ENOMEM;
      }
      var grown := new Reader[cnt];
      var i := 0;
      while i < cnt - 1
        modifies grown
        invariant 0 <= i <= cnt - 1
        invariant grown[..i] == readers[..i]
      {
        grown[i] := readers[i];
        i := i + 1;
      }
      grown[cnt - 1] := Reader(sock, privateData, cb);
      assert grown[..cnt] == readers[..readerCount] + [Reader(sock, privateData, cb)];
      readers := grown;
      readerCount := cnt;
      if sock > maxSock {
        maxSock := sock % BYTE;
      }
      r := 0;
    }

    /** aos_cancel_poll_read_fd: drop the first reader on sock, moving the
        later ones down in place; action and param take no part. */
    method CancelPollReadFd(sock: int, action: int, param: int)
      requires Valid()
      modifies readers, this`readerCount
      ensures Valid()
      ensures var i := FindReader(old(Registered()), sock);
              Registered() == if i < old(readerCount) then old(Registered())[..i] + old(Registered())[i + 1..]
                              else old(Registered())
    {
      if readerCount == 0 {
        return;
      }
      var i := 0;
      while i < readerCount && readers[i].sock != sock
        invariant 0 <= i <= readerCount
        invariant forall j :: 0 <= j < i ==> readers[j].sock != sock
      {
        i := i + 1;
      }
      ghost var rs := readers[..readerCount];
      assert i == FindReader(rs, sock) by { FindReaderIs(rs, sock, i); }
      if i == readerCount {
        return;
      }
      ShiftDown(readers, readerCount, i);
      readerCount := readerCount - 1;
    }

    /** aos_post_delayed_action: add {now + ms, param, action, ms} to the
        ascending list, after every entry with the same deadline. now is
        the clock reading and allocOk the outcome of the allocation. */
    method PostDelayedAction(ms: int, action: int, param: int, now: int, allocOk: bool) returns (r: int)
      modifies this`timeouts
      ensures action == NULL ==> r == -EINVAL
      ensures action != NULL && !allocOk ==> r == -ENOMEM
      ensures r != 0 ==> timeouts == old(timeouts)
      ensures action != NULL && allocOk ==> r == 0
      ensures r == 0 ==>
                var t := Timeout(now + ms, param, action, ms);
                var p := InsertPos(old(timeouts), now + ms);
                timeouts == old(timeouts)[..p] + [t] + old(timeouts)[p..]
      ensures Ascending(old(timeouts)) ==> Ascending(timeouts)
    {
      if action == NULL {
        return -EINVAL;
      }
      if !allocOk {
        return -ENOMEM;
      }
      var t := Timeout(now + ms, param, action, ms);
      var i := 0;
      while i < |timeouts| && !(t.deadline < timeouts[i].deadline)
        invariant 0 <= i <= |timeouts|
        invariant forall j :: 0 <= j < i ==> timeouts[j].deadline <= t.deadline
      {
        i := i + 1;
      }
      assert i == InsertPos(timeouts, t.deadline) by { InsertPosIs(timeouts, t.deadline, i); }
      if Ascending(timeouts) {
        InsertKeepsAscending(timeouts, t);
      }
      timeouts := timeouts[..i] + [t] + timeouts[i..];
      r := 0;
    }

    /** aos_cancel_delayed_action: remove only the first entry that matches
        the filter. */
    method CancelDelayedAction(ms: int, cb: int, privateData: int)
      modifies this`timeouts
      ensures var i := FirstMatch(old(timeouts), ms, cb, privateData);
              timeouts == if i < |old(timeouts)| then old(timeouts)[..i] + old(timeouts)[i + 1..]
                          else old(timeouts)
      ensures Ascending(old(timeouts)) ==> Ascending(timeouts)
    {
      var i := 0;
      while i < |timeouts|
        invariant 0 <= i <= |timeouts|
        invariant forall j :: 0 <= j < i ==> !Matches(timeouts[j], ms, cb, privateData)
      {
        var tmp := timeouts[i];
        if ms != -1 && tmp.ms != ms {
          i := i + 1;
          continue;
        }
        if tmp.cb != cb {
          i := i + 1;
          continue;
        }
        if tmp.privateData != privateData {
          i := i + 1;
          continue;
        }
        assert i == FirstMatch(timeouts, ms, cb, privateData) by { FirstMatchIs(timeouts, ms, cb, privateData, i); }
        if Ascending(timeouts) {
          RemoveKeepsAscending(timeouts, i);
        }
        timeouts := timeouts[..i] + timeouts[i + 1..];
        return;
      }
      assert i == FirstMatch(timeouts, ms, cb, privateData) by { FirstMatchIs(timeouts, ms, cb, privateData, i); }
    }

    /** One pass of the aos_loop_run loop body: compute the poll delay, poll,
        fire the earliest delayed action if it is due by then, and report
        the readers whose slot came back readable. stop is set when poll
        failed with an error other than EINTR. */
    method RunOnce(step: PollStep) returns (stop: bool, delay: int, events: seq<Event>)
      requires Valid()
      modifies this`timeouts
      ensures delay == PollDelay(old(timeouts), step.nowBefore)
      ensures stop == (step.res < 0 && !step.interrupted)
      ensures stop ==> timeouts == old(timeouts) && events == []
      ensures !stop ==> events == DueEvent(old(timeouts), step.nowAfter) + ReaderEvents(Registered(), step.res, step.readable)
      ensures !stop ==> timeouts == if Due(old(timeouts), step.nowAfter) then old(timeouts)[1..] else old(timeouts)
    {
      delay := -1;
      var readersNow := readerCount;
      if timeouts != [] {
        var tmo := timeouts[0];
        if step.nowBefore < tmo.deadline {
          delay := tmo.deadline - step.nowBefore;
        } else {
          delay := 0;
        }
      }
      if step.res < 0 && !step.interrupted {
        return true, delay, [];
      }
      stop := false;
      events := [];
      if timeouts != [] {
        var tmo := timeouts[0];
        if step.nowAfter >= tmo.deadline {
          timeouts := timeouts[1..];
          events := [TimeoutFired(tmo.cb, tmo.privateData)];
        }
      }
      if step.res <= 0 {
        return;
      }
      ghost var fired := events;
      var i := 0;
      while i < readersNow
        modifies {}
        invariant 0 <= i <= readersNow
        invariant events == fired + ReaderEvents(readers[..i], step.res, step.readable)
      {
        assert readers[..i + 1] == readers[..i] + [readers[i]];
        ReaderEventsSnoc(readers[..i], readers[i], step.res, step.readable);
        if i in step.readable {
          events := events + [ReadReady(readers[i].sock, readers[i].privateData, readers[i].cb)];
        }
        i := i + 1;
      }
      assert readers[..readersNow] == Registered();
    }

    /** aos_loop_run: repeat while not terminated and there is a delayed
        action or a reader; clear terminate on a normal return (a poll
        failure returns without clearing it). steps supplies the clock and
        poll outcome of each pass. */
    method LoopRun(steps: seq<PollStep>) returns (exit: LoopExit, events: seq<Event>, delays: seq<int>)
      requires Valid()
      modifies this`timeouts, this`terminate
      ensures Valid()
      ensures exit == PollFailed ==> terminate == old(terminate)
      ensures exit != PollFailed ==> !terminate
      ensures old(terminate) ==> exit == Terminated && events == [] && delays == []
      ensures exit == Drained ==> timeouts == [] && readerCount == 0
      ensures |delays| <= |steps|
      ensures exists n :: 0 <= n <= |old(timeouts)| && timeouts == old(timeouts)[n..]
      ensures Ascending(old(timeouts)) ==> Ascending(timeouts)
      ensures !old(terminate) ==>
                var r := Run(old(timeouts), old(Registered()), steps);
                exit == r.exit && events == r.events && delays == r.delays && timeouts == r.rest
    {
      if terminate {
        exit, events, delays := Terminated, [], [];
        terminate := false;
        assert timeouts == old(timeouts)[0..];
        return;
      }
      exit, events, delays := Passes(steps);
      RunLeaves(old(timeouts), Registered(), steps);
      if exit != PollFailed {
        terminate := false;
      }
    }

    /** The passes of aos_loop_run on a context that is not terminated,
        up to a poll failure, a drained context or the last answer of
        steps. */
    method Passes(steps: seq<PollStep>) returns (exit: LoopExit, events: seq<Event>, delays: seq<int>)
      requires Valid() && !terminate
      modifies this`timeouts
      ensures Valid()
      ensures var r := Run(old(timeouts), Registered(), steps);
              exit == r.exit && events == r.events && delays == r.delays && timeouts == r.rest
    {
      var k := 0;
      events, delays := [], [];
      ghost var ts0, rs := timeouts, Registered();
      while !terminate && (timeouts != [] || readerCount > 0) && k < |steps|
        invariant 0 <= k <= |steps|
        invariant Registered() == rs
        invariant var r := Run(timeouts, rs, steps[k..]);
                  Run(ts0, rs, steps) == RunResult(r.exit, events + r.events, delays + r.delays, r.rest)
      {
        ghost var before, events0, delays0 := timeouts, events, delays;
        var stop, delay, evs := RunOnce(steps[k]);
        assert Registered() == rs;
        delays := delays + [delay];
        if stop {
          exit := PollFailed;
          RunFails(ts0, rs, steps, k, events, delays0, before, delay);
          return;
        }
        events := events + evs;
        RunPass(ts0, rs, steps, k, events0, delays0, before, delay, evs, timeouts);
        k := k + 1;
      }
      RunEnds(ts0, rs, steps, k, events, delays, timeouts);
      if timeouts == [] && readerCount == 0 {
        exit := Drained;
      } else {
        exit := OutOfSteps;
      }
    }
  }

  /** The copy loop of aos_cancel_poll_read_fd: a[i] is dropped from
      a[..n], each later element moving down one place. */
  method ShiftDown(a: array<Reader>, n: nat, i: nat)
    requires i < n <= a.Length
    modifies a
    ensures a[..n - 1] == old(a[..n])[..i] + old(a[..n])[i + 1..]
  {
    ghost var rs := a[..n];
    var j := i;
    while j < n - 1
      invariant i <= j <= n - 1
      invariant forall k :: 0 <= k < i ==> a[k] == rs[k]
      invariant forall k :: i <= k < j ==> a[k] == rs[k + 1]
      invariant forall k :: j < k < n ==> a[k] == rs[k]
    {
      a[j] := a[j + 1];
      j := j + 1;
    }
    forall k | 0 <= k < n - 1
      ensures a[k] == (rs[..i] + rs[i + 1..])[k]
    {
    }
  }

  /** The earliest delayed action is due at time now. */
  predicate Due(ts: seq<Timeout>, now: int)
  {
    ts != [] && now >= ts[0].deadline
  }

  /** The callback a due earliest action contributes. */
  function DueEvent(ts: seq<Timeout>, now: int): (es: seq<Event>)
    ensures |es| <= 1
    ensures es != [] <==> Due(ts, now)
    ensures es != [] ==> es[0] == TimeoutFired(ts[0].cb, ts[0].privateData)
  {
    if Due(ts, now) then [TimeoutFired(ts[0].cb, ts[0].privateData)] else []
  }

  /** The reader callbacks a poll result triggers: none unless poll returned
      a positive count, otherwise one per readable slot, in slot order. */
  function ReaderEvents(rs: seq<Reader>, res: int, readable: set<nat>): (es: seq<Event>)
    ensures res <= 0 ==> es == []
    ensures |es| <= |rs|
  {
    if res <= 0 || rs == [] then []
    else
      var prev := ReaderEvents(rs[..|rs| - 1], res, readable);
      var r := rs[|rs| - 1];
      if |rs| - 1 in readable then prev + [ReadReady(r.sock, r.privateData, r.cb)] else prev
  }

  lemma ReaderEventsSnoc(rs: seq<Reader>, r: Reader, res: int, readable: set<nat>)
    requires res > 0
    ensures ReaderEvents(rs + [r], res, readable) ==
            ReaderEvents(rs, res, readable) + (if |rs| in readable then [ReadReady(r.sock, r.privateData, r.cb)] else [])
  {
    assert (rs + [r])[..|rs|] == rs;
  }

  /** What aos_loop_run does, for a context not terminated on entry, with
      readers rs and delayed actions ts, when steps answers its passes in
      turn: why it returns, the callbacks it invokes in order, the delay
      of each poll, and the delayed actions left. */
  datatype RunResult = RunResult(exit: LoopExit, events: seq<Event>, delays: seq<int>, rest: seq<Timeout>)

  function Run(ts: seq<Timeout>, rs: seq<Reader>, steps: seq<PollStep>): (r: RunResult)
    ensures r.exit != Terminated
    ensures |r.delays| <= |steps| && |r.rest| <= |ts|
    ensures r.exit == Drained <==> r.rest == [] && rs == [] && r.exit != PollFailed
    ensures r.exit == OutOfSteps ==> |r.delays| == |steps|
    ensures r.exit == PollFailed ==> r.delays != []
  {
    if ts == [] && rs == [] then RunResult(Drained, [], [], ts)
    else if steps == [] then RunResult(OutOfSteps, [], [], ts)
    else
      var s := steps[0];
      var d := PollDelay(ts, s.nowBefore);
      if s.res < 0 && !s.interrupted then RunResult(PollFailed, [], [d], ts)
      else
        var r := Run(if Due(ts, s.nowAfter) then ts[1..] else ts, rs, steps[1..]);
        RunResult(r.exit, DueEvent(ts, s.nowAfter) + ReaderEvents(rs, s.res, s.readable) + r.events, [d] + r.delays, r.rest)
  }

  /** A run already reported as events and delays, from actions ts0
      down to ts at pass k, extended by one more pass of the loop. */
  lemma RunPass(ts0: seq<Timeout>, rs: seq<Reader>, steps: seq<PollStep>, k: nat, events: seq<Event>, delays: seq<int>,
                ts: seq<Timeout>, d: int, evs: seq<Event>, ts': seq<Timeout>)
    requires k < |steps| && (ts != [] || rs != [])
    requires var r := Run(ts, rs, steps[k..]);
             Run(ts0, rs, steps) == RunResult(r.exit, events + r.events, delays + r.delays, r.rest)
    requires d == PollDelay(ts, steps[k].nowBefore)
    requires !(steps[k].res < 0 && !steps[k].interrupted)
    requires evs == DueEvent(ts, steps[k].nowAfter) + ReaderEvents(rs, steps[k].res, steps[k].readable)
    requires ts' == if Due(ts, steps[k].nowAfter) then ts[1..] else ts
    ensures var r := Run(ts', rs, steps[k + 1..]);
            Run(ts0, rs, steps) == RunResult(r.exit, events + evs + r.events, delays + [d] + r.delays, r.rest)
  {
    var sk := steps[k..];
    assert sk[0] == steps[k] && sk[1..] == steps[k + 1..];
    var r := Run(ts', rs, steps[k + 1..]);
    RunUnfold(ts, rs, sk, d, evs, ts');
    var big := Run(ts, rs, sk);
    assert big.events == evs + r.events && big.delays == [d] + r.delays;
    Assoc(events, evs, r.events);
    Assoc(delays, [d], r.delays);
  }

  lemma Assoc<T>(a: seq<T>, b: seq<T>, c: seq<T>)
    ensures a + (b + c) == a + b + c
  {
  }

  /** One pass of Run that does not stop it. */
  lemma RunUnfold(ts: seq<Timeout>, rs: seq<Reader>, steps: seq<PollStep>, d: int, evs: seq<Event>, ts': seq<Timeout>)
    requires steps != [] && (ts != [] || rs != [])
    requires d == PollDelay(ts, steps[0].nowBefore)
    requires !(steps[0].res < 0 && !steps[0].interrupted)
    requires evs == DueEvent(ts, steps[0].nowAfter) + ReaderEvents(rs, steps[0].res, steps[0].readable)
    requires ts' == if Due(ts, steps[0].nowAfter) then ts[1..] else ts
    ensures var r := Run(ts', rs, steps[1..]);
            Run(ts, rs, steps) == RunResult(r.exit, evs + r.events, [d] + r.delays, r.rest)
  {
  }

  /** The pass at k fails in poll, which ends the run. */
  lemma RunFails(ts0: seq<Timeout>, rs: seq<Reader>, steps: seq<PollStep>, k: nat, events: seq<Event>, delays: seq<int>,
                 ts: seq<Timeout>, d: int)
    requires k < |steps| && (ts != [] || rs != [])
    requires var r := Run(ts, rs, steps[k..]);
             Run(ts0, rs, steps) == RunResult(r.exit, events + r.events, delays + r.delays, r.rest)
    requires d == PollDelay(ts, steps[k].nowBefore)
    requires steps[k].res < 0 && !steps[k].interrupted
    ensures Run(ts0, rs, steps) == RunResult(PollFailed, events, delays + [d], ts)
  {
    assert steps[k..][0] == steps[k];
    assert Run(ts, rs, steps[k..]) == RunResult(PollFailed, [], [d], ts);
    assert events + [] == events;
  }

  /** The loop stops polling at pass k: no action and no reader is left,
      or the environment has no answer left. */
  lemma RunEnds(ts0: seq<Timeout>, rs: seq<Reader>, steps: seq<PollStep>, k: nat, events: seq<Event>, delays: seq<int>,
                ts: seq<Timeout>)
    requires k <= |steps| && ((ts == [] && rs == []) || k == |steps|)
    requires var r := Run(ts, rs, steps[k..]);
             Run(ts0, rs, steps) == RunResult(r.exit, events + r.events, delays + r.delays, r.rest)
    ensures Run(ts0, rs, steps) == RunResult(if ts == [] && rs == [] then Drained else OutOfSteps, events, delays, ts)
  {
    assert events + [] == events && delays + [] == delays;
  }

  /** The actions a run leaves are a suffix of the list, ascending when
      the list was. */
  lemma RunLeaves(ts: seq<Timeout>, rs: seq<Reader>, steps: seq<PollStep>)
    ensures var r := Run(ts, rs, steps);
            (exists n :: 0 <= n <= |ts| && r.rest == ts[n..]) && (Ascending(ts) ==> Ascending(r.rest))
  {
    var r := Run(ts, rs, steps);
    RunFiresPrefix(ts, rs, steps);
    var n := |ts| - |r.rest|;
    if Ascending(ts) {
      SuffixAscending(ts, n);
    }
  }

  /** The delayed-action callbacks among es, in order. */
  function TimeoutEvents(es: seq<Event>): seq<Event>
  {
    if es == [] then [] else (if es[0].TimeoutFired? then [es[0]] else []) + TimeoutEvents(es[1..])
  }

  /** The callbacks of the actions ts, in list order. */
  function FiredOf(ts: seq<Timeout>): seq<Event>
  {
    if ts == [] then [] else [TimeoutFired(ts[0].cb, ts[0].privateData)] + FiredOf(ts[1..])
  }

  lemma {:induction false} TimeoutEventsAppend(a: seq<Event>, b: seq<Event>)
    ensures TimeoutEvents(a + b) == TimeoutEvents(a) + TimeoutEvents(b)
  {
    if a == [] {
      assert a + b == b;
    } else {
      assert (a + b)[0] == a[0] && (a + b)[1..] == a[1..] + b;
      TimeoutEventsAppend(a[1..], b);
    }
  }

  lemma {:induction false} ReaderEventsNoTimeout(rs: seq<Reader>, res: int, readable: set<nat>)
    ensures TimeoutEvents(ReaderEvents(rs, res, readable)) == []
  {
    if res > 0 && rs != [] {
      var r := rs[|rs| - 1];
      ReaderEventsNoTimeout(rs[..|rs| - 1], res, readable);
      TimeoutEventsAppend(ReaderEvents(rs[..|rs| - 1], res, readable), [ReadReady(r.sock, r.privateData, r.cb)]);
    }
  }

  /** Over a whole run, delayed actions fire from the front of the list,
      in list order and each at most once: the delayed-action callbacks
      invoked are those of the first n actions, and the other actions are
      left. */
  lemma {:induction false} RunFiresPrefix(ts: seq<Timeout>, rs: seq<Reader>, steps: seq<PollStep>)
    ensures var r := Run(ts, rs, steps);
            var n := |ts| - |r.rest|;
            r.rest == ts[n..] && TimeoutEvents(r.events) == FiredOf(ts[..n])
  {
    var r := Run(ts, rs, steps);
    if (ts == [] && rs == []) || steps == [] || (steps[0].res < 0 && !steps[0].interrupted) {
      assert r.rest == ts && r.events == [];
    } else {
      var s := steps[0];
      var ts' := if Due(ts, s.nowAfter) then ts[1..] else ts;
      var r' := Run(ts', rs, steps[1..]);
      RunFiresPrefix(ts', rs, steps[1..]);
      var due := DueEvent(ts, s.nowAfter);
      var rd := ReaderEvents(rs, s.res, s.readable);
      assert r.events == due + rd + r'.events && r.rest == r'.rest;
      FiredStep(ts, ts', due, rd, r'.events, r'.rest, s.nowAfter, s.res, s.readable, rs);
    }
  }

  /** The step of RunFiresPrefix: one pass fires at most the head. */
  lemma FiredStep(ts: seq<Timeout>, ts': seq<Timeout>, due: seq<Event>, rd: seq<Event>, evs: seq<Event>,
                  rest: seq<Timeout>, now: int, res: int, readable: set<nat>, rs: seq<Reader>)
    requires ts' == (if Due(ts, now) then ts[1..] else ts)
    requires due == DueEvent(ts, now) && rd == ReaderEvents(rs, res, readable)
    requires |rest| <= |ts'| && rest == ts'[|ts'| - |rest|..]
    requires TimeoutEvents(evs) == FiredOf(ts'[..|ts'| - |rest|])
    ensures var n := |ts| - |rest|;
            rest == ts[n..] && TimeoutEvents(due + rd + evs) == FiredOf(ts[..n])
  {
    var n' := |ts'| - |rest|;
    TimeoutEventsAppend(due + rd, evs);
    TimeoutEventsAppend(due, rd);
    ReaderEventsNoTimeout(rs, res, readable);
    if Due(ts, now) {
      assert due == [TimeoutFired(ts[0].cb, ts[0].privateData)];
      assert TimeoutEvents(due) == [TimeoutFired(ts[0].cb, ts[0].privateData)];
      var p := ts[..n' + 1];
      assert p[0] == ts[0] && p[1..] == ts'[..n'];
      assert FiredOf(p) == [TimeoutFired(ts[0].cb, ts[0].privateData)] + FiredOf(ts'[..n']);
      assert rest == ts[n' + 1..];
    } else {
      assert due == [];
    }
  }

  lemma SuffixAscending(ts: seq<Timeout>, n: nat)
    requires Ascending(ts) && n <= |ts|
    ensures Ascending(ts[n..])
  {
    forall i, j | 0 <= i < j < |ts[n..]| ensures ts[n..][i].deadline <= ts[n..][j].deadline {
      assert ts[n..][i] == ts[n + i] && ts[n..][j] == ts[n + j];
    }
  }

  lemma InsertPosIs(ts: seq<Timeout>, d: int, i: nat)
    requires i <= |ts|
    requires forall j :: 0 <= j < i ==> ts[j].deadline <= d
    requires i < |ts| ==> d < ts[i].deadline
    ensures i == InsertPos(ts, d)
  {
    if ts != [] && d >= ts[0].deadline {
      assert i > 0;
      InsertPosIs(ts[1..], d, i - 1);
    }
  }

  lemma FirstMatchIs(ts: seq<Timeout>, ms: int, cb: int, privateData: int, i: nat)
    requires i <= |ts|
    requires forall j :: 0 <= j < i ==> !Matches(ts[j], ms, cb, privateData)
    requires i < |ts| ==> Matches(ts[i], ms, cb, privateData)
    ensures i == FirstMatch(ts, ms, cb, privateData)
  {
    if ts != [] && !Matches(ts[0], ms, cb, privateData) {
      assert i > 0;
      FirstMatchIs(ts[1..], ms, cb, privateData, i - 1);
    }
  }

  lemma FindReaderIs(rs: seq<Reader>, sock: int, i: nat)
    requires i <= |rs|
    requires forall j :: 0 <= j < i ==> rs[j].sock != sock
    requires i < |rs| ==> rs[i].sock == sock
    ensures i == FindReader(rs, sock)
  {
    if rs != [] && rs[0].sock != sock {
      assert i > 0;
      FindReaderIs(rs[1..], sock, i - 1);
    }
  }
}
