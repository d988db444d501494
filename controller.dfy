/** What the controller does, stated on values: the outcome of one throttle
    call, the result of the connection check, which commands the entry point
    issues and in what order, and the calls and limits a run of commands
    produces. The imperative model in module ThrottleTool is proved against
    these definitions. */
module Controller {
  import opened Wrappers
  import opened Remote
  import Rates

  /** What one throttle call reports, the limit the service holds after it,
      and the calls it issued. */
  datatype Outcome = Outcome(ok: bool, limit: int, calls: seq<Call>)

  /** Throttling `dir` to `rate` KB/s while the service holds `before`: read
      the limit; if it already equals the target, report success without a
      write; otherwise write the target once, read again, and report failure
      exactly when the second read still shows `before`. */
  function Throttled(dir: Direction, before: int, rate: int, e: WriteEffect): (o: Outcome)
    ensures Rates.Target(rate) == before ==> o.ok && o.limit == before && o.calls == [ReadLimit(dir)]
    ensures Rates.Target(rate) != before ==>
      o.calls == [ReadLimit(dir), WriteLimit(dir, Rates.Target(rate)), ReadLimit(dir)]
    ensures Rates.Target(rate) != before ==> (!o.ok <==> o.limit == before)
    ensures e == Applied ==> o.ok && o.limit == Rates.Target(rate)
    ensures e == Dropped ==> o.limit == before && (o.ok <==> Rates.Target(rate) == before)
  {
    var target := Rates.Target(rate);
    if target == before then Outcome(true, before, [ReadLimit(dir)])
    else
      var after := AfterWrite(before, target, e);
      Outcome(after != before, after, [ReadLimit(dir), WriteLimit(dir, target), ReadLimit(dir)])
  }

  /** The number of limit writes among `calls`. */
  function WriteCount(calls: seq<Call>): nat {
    if calls == [] then 0
    else (if calls[0].WriteLimit? then 1 else 0) + WriteCount(calls[1..])
  }

  lemma {:induction false} WriteCountAppend(a: seq<Call>, b: seq<Call>)
    ensures WriteCount(a + b) == WriteCount(a) + WriteCount(b)
    decreases |a|
  {
    if a != [] {
      assert (a + b)[0] == a[0];
      assert (a + b)[1..] == a[1..] + b;
      WriteCountAppend(a[1..], b);
    } else {
      assert a + b == b;
    }
  }

  /** A throttle that does not short-circuit issues exactly one write. */
  lemma WriteCountOfWrite(dir: Direction, limit: int)
    ensures WriteCount([ReadLimit(dir), WriteLimit(dir, limit), ReadLimit(dir)]) == 1
  {
    var calls := [ReadLimit(dir), WriteLimit(dir, limit), ReadLimit(dir)];
    assert calls[1..] == [WriteLimit(dir, limit), ReadLimit(dir)];
    assert [ReadLimit(dir)][1..] == [];
    assert WriteCount([ReadLimit(dir)]) == 0;
    assert [WriteLimit(dir, limit), ReadLimit(dir)][1..] == [ReadLimit(dir)];
    assert WriteCount([WriteLimit(dir, limit), ReadLimit(dir)]) == 1;
  }

  /** Throttling twice to the same rate, when the first write was applied,
      issues at most one write in all: the second call finds the target
      already set and only reads. */
  lemma ThrottleTwiceWritesOnce(dir: Direction, before: int, rate: int, e2: WriteEffect)
    ensures
      var o1 := Throttled(dir, before, rate, Applied);
      var o2 := Throttled(dir, o1.limit, rate, e2);
      && o2.ok && o2.limit == o1.limit && o2.calls == [ReadLimit(dir)]
      && WriteCount(o1.calls + o2.calls) == (if Rates.Target(rate) == before then 0 else 1)
  {
    var o1 := Throttled(dir, before, rate, Applied);
    var o2 := Throttled(dir, o1.limit, rate, e2);
    WriteCountAppend(o1.calls, o2.calls);
    assert WriteCount(o2.calls) == 0 by {
      assert o2.calls[1..] == [];
    }
    if Rates.Target(rate) != before {
      WriteCountOfWrite(dir, Rates.Target(rate));
    }
  }

  /** When the service drops writes, a second call to a rate not yet set
      writes again and fails again: idempotence rests on the write landing. */
  lemma ThrottleTwiceDropped(dir: Direction, before: int, rate: int)
    requires Rates.Target(rate) != before
    ensures
      var o1 := Throttled(dir, before, rate, Dropped);
      var o2 := Throttled(dir, o1.limit, rate, Dropped);
      && !o1.ok && !o2.ok && o2.limit == before && WriteCount(o1.calls + o2.calls) == 2
  {
    var o1 := Throttled(dir, before, rate, Dropped);
    var o2 := Throttled(dir, o1.limit, rate, Dropped);
    WriteCountAppend(o1.calls, o2.calls);
    WriteCountOfWrite(dir, Rates.Target(rate));
  }

  /** Success only means that the limit changed: a service that ends up
      holding a value other than both the old limit and the target is
      reported as a success. */
  lemma SuccessWithoutTarget(dir: Direction, before: int, rate: int, held: int)
    requires Rates.Target(rate) != before && held != before && held != Rates.Target(rate)
    ensures
      var o := Throttled(dir, before, rate, Overridden(held));
      o.ok && o.limit == held && o.limit != Rates.Target(rate)
  {
  }

  /** The connection check succeeds exactly when login returns without
      raising and the session then reports being logged in. */
  function ConnectionOk(response: LoginResponse): (ok: bool)
    ensures ok <==> response == Returned(true)
    ensures response.Raised? ==> !ok
  {
    match response
    case Raised(LoginFailed) => false
    case Raised(APIConnectionError) => false
    case Returned(loggedIn) => loggedIn
  }

  /** The parsed command line: optional rates in KB/s and the two flags. */
  datatype Request = Request(maxDownload: Option<int>, maxUpload: Option<int>, stop: bool, start: bool) {
    function Rate(dir: Direction): Option<int> {
      match dir
      case Download => maxDownload
      case Upload => maxUpload
    }
  }

  /** One command the entry point may issue. */
  datatype Op = Pause | Resume | SetLimit(dir: Direction, rate: int)

  /** The fixed position of each command in a run: stop, start, download, upload. */
  function Rank(op: Op): nat {
    match op
    case Pause => 0
    case Resume => 1
    case SetLimit(Download, _) => 2
    case SetLimit(Upload, _) => 3
  }

  /** `ops` followed by `op` when it was requested. */
  function Then(ops: seq<Op>, requested: bool, op: Op): seq<Op> {
    if requested then ops + [op] else ops
  }

  /** `ops` followed by a throttle of `dir` when a rate was given for it. */
  function ThenThrottle(ops: seq<Op>, dir: Direction, rate: Option<int>): seq<Op> {
    if rate.Some? then ops + [SetLimit(dir, rate.value)] else ops
  }

  /** The commands the entry point issues for `req` once the connection
      check has given `connected`. */
  function Dispatch(connected: bool, req: Request): (ops: seq<Op>)
    ensures !connected ==> ops == []
    ensures connected ==> (Pause in ops <==> req.stop) && (Resume in ops <==> req.start)
    ensures connected ==> forall dir :: req.Rate(dir).Some? ==> SetLimit(dir, req.Rate(dir).value) in ops
    ensures forall i :: 0 <= i < |ops| && ops[i].SetLimit? ==> req.Rate(ops[i].dir) == Some(ops[i].rate)
    ensures forall i, j :: 0 <= i < j < |ops| ==> Rank(ops[i]) < Rank(ops[j])
  {
    if !connected then []
    else
      var afterStop := Then([], req.stop, Pause);
      var afterStart := Then(afterStop, req.start, Resume);
      var afterDownload := ThenThrottle(afterStart, Download, req.maxDownload);
      ThenThrottle(afterDownload, Upload, req.maxUpload)
  }

  /** How the service treats a write to each limit during one run. */
  datatype Behaviour = Behaviour(download: WriteEffect, upload: WriteEffect) {
    function Effect(dir: Direction): WriteEffect {
      match dir
      case Download => download
      case Upload => upload
    }
  }

  /** The limits after a run of commands and the calls it issued. */
  datatype Trace = Trace(limits: Limits, calls: seq<Call>)

  /** One command against the service: pause and resume issue their call and
      leave both limits as they were; a throttle changes only its own limit,
      starts by reading it and writes at most once. */
  function Step(op: Op, s: Limits, b: Behaviour): (t: Trace)
    ensures forall dir :: !(op.SetLimit? && op.dir == dir) ==> t.limits.Get(dir) == s.Get(dir)
    ensures op.Pause? ==> t.calls == [PauseAll]
    ensures op.Resume? ==> t.calls == [ResumeAll]
    ensures 1 <= |t.calls| <= 3 && WriteCount(t.calls) <= 1
    ensures op.SetLimit? ==> t.calls[0] == ReadLimit(op.dir) && (|t.calls| == 1 <==> Rates.Target(op.rate) == s.Get(op.dir))
  {
    match op
    case Pause => Trace(s, [PauseAll])
    case Resume => Trace(s, [ResumeAll])
    case SetLimit(dir, rate) =>
      var o := Throttled(dir, s.Get(dir), rate, b.Effect(dir));
      if Rates.Target(rate) != s.Get(dir) then WriteCountOfWrite(dir, Rates.Target(rate)); Trace(s.With(dir, o.limit), o.calls)
      else Trace(s.With(dir, o.limit), o.calls)
  }

  /** The commands run one after another from the limits `s`: each command
      issues between one and three calls, and at most one of them is a write. */
  function Execute(ops: seq<Op>, s: Limits, b: Behaviour): (t: Trace)
    ensures ops == [] ==> t == Trace(s, [])
    ensures |ops| <= |t.calls| <= 3 * |ops|
    ensures WriteCount(t.calls) <= |ops|
    decreases |ops|
  {
    if ops == [] then Trace(s, [])
    else
      var first := Step(ops[0], s, b);
      var rest := Execute(ops[1..], first.limits, b);
      WriteCountAppend(first.calls, rest.calls);
      Trace(rest.limits, first.calls + rest.calls)
  }

  /** Running one more command continues from where the run left off. */
  lemma {:induction false} ExecuteSnoc(ops: seq<Op>, op: Op, s: Limits, b: Behaviour)
    ensures
      var t := Execute(ops, s, b);
      var u := Step(op, t.limits, b);
      Execute(ops + [op], s, b) == Trace(u.limits, t.calls + u.calls)
    decreases |ops|
  {
    if ops == [] {
      assert [] + [op] == [op];
      assert [op][1..] == [];
      var u := Step(op, s, b);
      assert Execute([op], s, b) == Trace(u.limits, u.calls + []);
      assert u.calls + [] == [] + u.calls;
    } else {
      var first := Step(ops[0], s, b);
      var longer := ops + [op];
      assert longer[0] == ops[0];
      assert longer[1..] == ops[1..] + [op];
      ExecuteSnoc(ops[1..], op, first.limits, b);
      var rest := Execute(ops[1..], first.limits, b);
      var u := Step(op, rest.limits, b);
      assert Execute(longer, s, b) == Trace(u.limits, first.calls + (rest.calls + u.calls));
      assert first.calls + (rest.calls + u.calls) == (first.calls + rest.calls) + u.calls;
    }
  }

  /** One more command after the run that gave `t`: its calls follow those of `t`. */
  function Continue(t: Trace, op: Op, b: Behaviour): Trace {
    var u := Step(op, t.limits, b);
    Trace(u.limits, t.calls + u.calls)
  }

  /** The run `t` continued by `op` when it was requested. */
  function ContinueIf(t: Trace, requested: bool, op: Op, b: Behaviour): Trace {
    if requested then Continue(t, op, b) else t
  }

  /** The run `t` continued by a throttle of `dir` when a rate was given for it. */
  function ContinueThrottle(t: Trace, dir: Direction, rate: Option<int>, b: Behaviour): Trace {
    if rate.Some? then Continue(t, SetLimit(dir, rate.value), b) else t
  }

  /** The run of `ops` from the limits `s`, on top of the calls `p`. */
  function RunOnTop(ops: seq<Op>, s: Limits, p: seq<Call>, b: Behaviour): Trace {
    var e := Execute(ops, s, b);
    Trace(e.limits, p + e.calls)
  }

  /** Continuing a run by one command is running one command more. */
  lemma ContinueRun(ops: seq<Op>, op: Op, s: Limits, p: seq<Call>, b: Behaviour)
    ensures Continue(RunOnTop(ops, s, p, b), op, b) == RunOnTop(ops + [op], s, p, b)
  {
    ExecuteSnoc(ops, op, s, b);
    var e := Execute(ops, s, b);
    var u := Step(op, e.limits, b);
    assert p + e.calls + u.calls == p + (e.calls + u.calls);
  }

  /** Running the dispatched commands of a connected invocation is taking
      the four optional steps one after the other, on top of the calls `p`. */
  lemma DispatchSteps(req: Request, s: Limits, p: seq<Call>, b: Behaviour)
    ensures
      var e := Execute(Dispatch(true, req), s, b);
      var afterStop := ContinueIf(Trace(s, p), req.stop, Pause, b);
      var afterStart := ContinueIf(afterStop, req.start, Resume, b);
      var afterDownload := ContinueThrottle(afterStart, Download, req.maxDownload, b);
      ContinueThrottle(afterDownload, Upload, req.maxUpload, b) == Trace(e.limits, p + e.calls)
  {
    var ops1 := Then([], req.stop, Pause);
    var ops2 := Then(ops1, req.start, Resume);
    var ops3 := ThenThrottle(ops2, Download, req.maxDownload);
    var ops4 := ThenThrottle(ops3, Upload, req.maxUpload);
    assert p + [] == p;
    var t1 := ContinueIf(RunOnTop([], s, p, b), req.stop, Pause, b);
    if req.stop {
      ContinueRun([], Pause, s, p, b);
    }
    assert t1 == RunOnTop(ops1, s, p, b);
    var t2 := ContinueIf(t1, req.start, Resume, b);
    if req.start {
      ContinueRun(ops1, Resume, s, p, b);
    }
    assert t2 == RunOnTop(ops2, s, p, b);
    var t3 := ContinueThrottle(t2, Download, req.maxDownload, b);
    if req.maxDownload.Some? {
      ContinueRun(ops2, SetLimit(Download, req.maxDownload.value), s, p, b);
    }
    assert t3 == RunOnTop(ops3, s, p, b);
    if req.maxUpload.Some? {
      ContinueRun(ops3, SetLimit(Upload, req.maxUpload.value), s, p, b);
    }
    assert ops4 == Dispatch(true, req);
  }

  /** A run that holds no throttle for `dir` leaves that limit alone and
      neither reads nor writes it. */
  lemma {:induction false} ExecuteLeavesOtherLimit(ops: seq<Op>, s: Limits, b: Behaviour, dir: Direction)
    requires forall i :: 0 <= i < |ops| ==> !(ops[i].SetLimit? && ops[i].dir == dir)
    ensures Execute(ops, s, b).limits.Get(dir) == s.Get(dir)
    ensures forall c :: c in Execute(ops, s, b).calls ==> c != ReadLimit(dir) && !(c.WriteLimit? && c.dir == dir)
    decreases |ops|
  {
    if ops != [] {
      var first := Step(ops[0], s, b);
      assert first.limits.Get(dir) == s.Get(dir);
      assert forall c :: c in first.calls ==> c != ReadLimit(dir) && !(c.WriteLimit? && c.dir == dir);
      ExecuteLeavesOtherLimit(ops[1..], first.limits, b, dir);
    }
  }

  /** Every write in a run of dispatched commands asks for the target of the
      rate the request gives for that limit. */
  lemma {:induction false} ExecuteWritesTargets(ops: seq<Op>, s: Limits, b: Behaviour, req: Request)
    requires forall i :: 0 <= i < |ops| && ops[i].SetLimit? ==> req.Rate(ops[i].dir) == Some(ops[i].rate)
    ensures forall c :: c in Execute(ops, s, b).calls && c.WriteLimit? ==>
      req.Rate(c.dir).Some? && c.limit == Rates.Target(req.Rate(c.dir).value)
    decreases |ops|
  {
    if ops != [] {
      var first := Step(ops[0], s, b);
      ExecuteWritesTargets(ops[1..], first.limits, b, req);
    }
  }

  /** A whole invocation: no command when the connection check fails;
      otherwise each write is the target of the requested rate, and a limit
      the request does not name is neither touched nor read. */
  lemma RunProperties(connected: bool, req: Request, s: Limits, b: Behaviour)
    ensures !connected ==> Execute(Dispatch(connected, req), s, b) == Trace(s, [])
    ensures forall c :: c in Execute(Dispatch(connected, req), s, b).calls && c.WriteLimit? ==>
      req.Rate(c.dir).Some? && c.limit == Rates.Target(req.Rate(c.dir).value)
    ensures forall dir :: req.Rate(dir).None? ==>
      Execute(Dispatch(connected, req), s, b).limits.Get(dir) == s.Get(dir)
  {
    var ops := Dispatch(connected, req);
    ExecuteWritesTargets(ops, s, b, req);
    forall dir | req.Rate(dir).None?
      ensures Execute(ops, s, b).limits.Get(dir) == s.Get(dir)
    {
      ExecuteLeavesOtherLimit(ops, s, b, dir);
    }
  }

  /** `--stop -D 500` against a service holding another download limit:
      pause, then read, write 512000 bytes/s and read again. */
  lemma StopThenLimitDownload(s: Limits, b: Behaviour)
    requires s.download != 512000
    ensures
      var t := Execute(Dispatch(true, Request(Some(500), None, true, false)), s, b);
      && t.calls == [PauseAll, ReadLimit(Download), WriteLimit(Download, 512000), ReadLimit(Download)]
      && t.limits.upload == s.upload
      && (b.download == Applied ==> t.limits.download == 512000)
      && (b.download == Dropped ==> t.limits.download == s.download)
  {
  }

  /** `-D -1` when the download limit is already unlimited: one read, no write. */
  lemma UnlimitAlreadyUnlimited(s: Limits, b: Behaviour)
    requires s.download == 0
    ensures Execute(Dispatch(true, Request(Some(-1), None, false, false)), s, b) == Trace(s, [ReadLimit(Download)])
  {
  }
}
