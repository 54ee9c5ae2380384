/** Sequential use of one exporter: a list of calls made one after another,
    the state they leave and the codes they return, with the cross-call facts
    the exporter guarantees. Concurrent calls are not modelled. */
module ExporterSessions {
  import opened ResultCodes
  import opened OtlpMetricJsonExporter
  import opened Options

  /** One call on the exporter. */
  datatype Op<M> =
    | ExportOp(metrics: seq<M>, shouldCancel: Option<() -> bool>)
    | FlushOp
    | ResetOp
    | ShutdownOp

  /** What one call returned; `reset` and `shutdown` return nothing. */
  datatype Reply =
    | Exported(exportCode: MetricExporterResultCode)
    | Flushed(flushCode: SpanExporterResultCode)
    | Done

  /** Calls that empty the buffer. */
  predicate Clears<M>(op: Op<M>) {
    op.ResetOp? || op.ShutdownOp?
  }

  /** Performs one call. */
  function Apply<M>(s: State<M>, op: Op<M>): (r: Step<M, Reply>)
    ensures r.state.isRunning ==> s.isRunning
    ensures Valid(s) ==> Valid(r.state)
    ensures r.code.Exported? <==> op.ExportOp?
    ensures r.code.Flushed? <==> op.FlushOp?
    ensures Clears(op) ==> |r.state.exportedMetrics| == 0
  {
    match op
    case ExportOp(ms, c) =>
      var e := Export(s, ms, c);
      Step(e.state, Exported(e.code))
    case FlushOp =>
      var f := Flush(s);
      Step(f.state, Flushed(f.code))
    case ResetOp => Step(Reset(s), Done)
    case ShutdownOp => Step(Shutdown(s), Done)
  }

  /** The state after performing `ops` in order, starting from `s`. */
  function Run<M>(s: State<M>, ops: seq<Op<M>>): State<M>
    decreases |ops|
  {
    if |ops| == 0 then s else Run(Apply(s, ops[0]).state, ops[1..])
  }

  /** The codes returned by performing `ops` in order, starting from `s`:
      one reply per call, of the kind that call returns. */
  function Replies<M>(s: State<M>, ops: seq<Op<M>>): (r: seq<Reply>)
    ensures |r| == |ops|
    ensures forall i :: 0 <= i < |ops| ==> (r[i].Exported? <==> ops[i].ExportOp?)
    ensures forall i :: 0 <= i < |ops| ==> (r[i].Flushed? <==> ops[i].FlushOp?)
    decreases |ops|
  {
    if |ops| == 0 then []
    else
      var st := Apply(s, ops[0]);
      var rest := Replies(st.state, ops[1..]);
      assert forall i :: 1 <= i < |ops| ==> ops[i] == ops[1..][i - 1];
      [st.code] + rest
  }

  // Reference definitions, independent of the exporter's state.

  /** Some call in `ops` is a `shutdown`. */
  predicate HasShutdown<M>(ops: seq<Op<M>>) {
    exists i :: 0 <= i < |ops| && ops[i].ShutdownOp?
  }

  /** Some call in `ops` empties the buffer. */
  predicate HasClear<M>(ops: seq<Op<M>>) {
    exists i :: 0 <= i < |ops| && Clears(ops[i])
  }

  /** Every call in `ops` is an `export`. */
  predicate AllExports<M>(ops: seq<Op<M>>) {
    forall i :: 0 <= i < |ops| ==> ops[i].ExportOp?
  }

  /** The metrics of all `export` calls in `ops`, concatenated in call order. */
  function Batches<M>(ops: seq<Op<M>>): seq<M>
    decreases |ops|
  {
    if |ops| == 0 then []
    else (if ops[0].ExportOp? then ops[0].metrics else []) + Batches(ops[1..])
  }

  /** The calls after the last call that empties the buffer (all of `ops` if none does). */
  function AfterLastClear<M>(ops: seq<Op<M>>): seq<Op<M>>
    decreases |ops|
  {
    if |ops| == 0 then []
    else if HasClear(ops[1..]) then AfterLastClear(ops[1..])
    else if Clears(ops[0]) then ops[1..]
    else ops
  }

  /** Whether a non-empty call list contains a `shutdown`, or a call that
      empties the buffer, is decided by its first call and the rest. */
  lemma HasCons<M>(ops: seq<Op<M>>)
    requires |ops| > 0
    ensures HasShutdown(ops) <==> ops[0].ShutdownOp? || HasShutdown(ops[1..])
    ensures HasClear(ops) <==> Clears(ops[0]) || HasClear(ops[1..])
  {
  }

  /** The running flag is only ever switched off: after any calls the
      exporter runs exactly when it ran before and none of them was `shutdown`. */
  lemma {:induction false} RunRunningFlag<M>(s: State<M>, ops: seq<Op<M>>)
    ensures Run(s, ops).isRunning <==> s.isRunning && !HasShutdown(ops)
    decreases |ops|
  {
    if |ops| > 0 {
      HasCons(ops);
      RunRunningFlag(Apply(s, ops[0]).state, ops[1..]);
    }
  }

  /** Any calls keep the invariant that a stopped exporter buffers nothing. */
  lemma {:induction false} RunKeepsValid<M>(s: State<M>, ops: seq<Op<M>>)
    requires Valid(s)
    ensures Valid(Run(s, ops))
    decreases |ops|
  {
    if |ops| > 0 {
      RunKeepsValid(Apply(s, ops[0]).state, ops[1..]);
    }
  }

  /** A sequence of exports on a running exporter appends their batches in
      call order and keeps it running. */
  lemma {:induction false} ExportsConcatenate<M>(s: State<M>, ops: seq<Op<M>>)
    requires s.isRunning
    requires AllExports(ops)
    ensures Run(s, ops) == State(s.exportedMetrics + Batches(ops), true)
    decreases |ops|
  {
    if |ops| > 0 {
      var t := Apply(s, ops[0]).state;
      assert t.exportedMetrics == s.exportedMetrics + ops[0].metrics;
      assert AllExports(ops[1..]) by {
        forall i | 0 <= i < |ops[1..]| ensures ops[1..][i].ExportOp? {
          assert ops[1..][i] == ops[i + 1];
        }
      }
      ExportsConcatenate(t, ops[1..]);
      assert (s.exportedMetrics + ops[0].metrics) + Batches(ops[1..])
          == s.exportedMetrics + (ops[0].metrics + Batches(ops[1..]));
    }
  }

  /** What the buffer holds after any calls: nothing once stopped; otherwise
      the batches exported since the last `reset`, after whatever was buffered
      at the start if no call emptied the buffer. */
  lemma {:induction false} RunBuffer<M>(s: State<M>, ops: seq<Op<M>>)
    requires Valid(s)
    ensures Run(s, ops).exportedMetrics ==
              if Run(s, ops).isRunning then
                (if HasClear(ops) then [] else s.exportedMetrics) + Batches(AfterLastClear(ops))
              else []
    decreases |ops|
  {
    RunKeepsValid(s, ops);
    if |ops| > 0 {
      var op := ops[0];
      var rest := ops[1..];
      var t := Apply(s, op).state;
      assert ops == [op] + rest;
      HasCons(ops);
      RunRunningFlag(s, ops);
      RunRunningFlag(t, rest);
      RunBuffer(t, rest);
      if Run(s, ops).isRunning && !HasClear(rest) {
        assert AfterLastClear(ops) == if Clears(op) then rest else ops;
        if !Clears(op) {
          assert Batches(ops) == (if op.ExportOp? then op.metrics else []) + Batches(rest);
          if op.ExportOp? {
            assert t.exportedMetrics == s.exportedMetrics + op.metrics;
            assert (s.exportedMetrics + op.metrics) + Batches(rest)
                == s.exportedMetrics + (op.metrics + Batches(rest));
          }
        }
      }
    } else {
      assert !HasClear(ops);
    }
  }

  /** Stopped is absorbing: after `shutdown`, any further calls leave the
      exporter stopped with an empty buffer. */
  lemma {:induction false} StoppedIsAbsorbing<M>(s: State<M>, ops: seq<Op<M>>)
    ensures Run(Shutdown(s), ops) == State([], false)
    decreases |ops|
  {
    if |ops| > 0 {
      assert Apply(Shutdown(s), ops[0]).state == Shutdown(s);
      StoppedIsAbsorbing(s, ops[1..]);
    }
  }

  /** After `shutdown`, every `export` fails without retry, every `flush`
      fails, and `reset` and `shutdown` return nothing. */
  lemma {:induction false} StoppedReplies<M>(s: State<M>, ops: seq<Op<M>>)
    ensures forall i :: 0 <= i < |ops| ==>
              Replies(Shutdown(s), ops)[i] ==
                (if ops[i].ExportOp? then Exported(FailureNotRetryable)
                 else if ops[i].FlushOp? then Flushed(Failure)
                 else Done)
    decreases |ops|
  {
    if |ops| > 0 {
      assert Apply(Shutdown(s), ops[0]).state == Shutdown(s);
      StoppedReplies(s, ops[1..]);
      forall i | 1 <= i < |ops|
        ensures Replies(Shutdown(s), ops)[i] == Replies(Shutdown(s), ops[1..])[i - 1]
        ensures ops[i] == ops[1..][i - 1]
      {
      }
    }
  }

  /** The reply a call returns when the exporter is (`up`) or is not running. */
  function ExpectedReply<M>(up: bool, op: Op<M>): Reply {
    match op
    case ExportOp(_, _) => Exported(if up then MetricExporterResultCode.Success else FailureNotRetryable)
    case FlushOp => Flushed(if up then SpanExporterResultCode.Success else Failure)
    case ResetOp => Done
    case ShutdownOp => Done
  }

  /** The code each call in a sequence returns: success exactly when the
      exporter was running at the start and no earlier call was `shutdown`;
      otherwise failureNotRetryable for `export` and failure for `flush`. */
  lemma {:induction false} RunReplies<M>(s: State<M>, ops: seq<Op<M>>)
    ensures forall i :: 0 <= i < |ops| ==>
              Replies(s, ops)[i] == ExpectedReply(s.isRunning && !HasShutdown(ops[..i]), ops[i])
    decreases |ops|
  {
    if |ops| > 0 {
      var t := Apply(s, ops[0]).state;
      assert t.isRunning <==> s.isRunning && !ops[0].ShutdownOp?;
      RunReplies(t, ops[1..]);
      assert !HasShutdown(ops[..0]);
      forall i | 1 <= i < |ops|
        ensures Replies(s, ops)[i] == ExpectedReply(s.isRunning && !HasShutdown(ops[..i]), ops[i])
      {
        assert Replies(s, ops)[i] == Replies(t, ops[1..])[i - 1];
        assert ops[1..][i - 1] == ops[i];
        assert ops[..i][1..] == ops[1..][..i - 1];
        assert ops[..i][0] == ops[0];
        HasCons(ops[..i]);
      }
    }
  }

  /** A freshly constructed exporter answers every `export` and `flush` with
      success until the first `shutdown`, and with failureNotRetryable and
      failure respectively from then on. */
  lemma FreshExporterReplies<M>(ops: seq<Op<M>>)
    ensures forall i :: 0 <= i < |ops| ==>
              Replies(Init<M>(), ops)[i] == ExpectedReply(!HasShutdown(ops[..i]), ops[i])
  {
    RunReplies(Init<M>(), ops);
  }

  /** A freshly constructed exporter, after any calls: running exactly when
      none of them was `shutdown`, and then holding the batches exported since
      the last `reset`, in call order. */
  lemma FreshExporterRun<M>(ops: seq<Op<M>>)
    ensures Run(Init<M>(), ops).isRunning <==> !HasShutdown(ops)
    ensures Run(Init<M>(), ops).exportedMetrics ==
              if HasShutdown(ops) then [] else Batches(AfterLastClear(ops))
  {
    var s := Init<M>();
    assert s.exportedMetrics == [];
    RunRunningFlag(s, ops);
    RunBuffer(s, ops);
  }

  /** Performing the calls from position `i` on is performing call `i`, then the rest. */
  lemma UnfoldAt<M>(s: State<M>, ops: seq<Op<M>>, i: nat, done: seq<Reply>)
    requires i < |ops|
    ensures Run(s, ops[i..]) == Run(Apply(s, ops[i]).state, ops[i + 1..])
    ensures done + Replies(s, ops[i..])
         == (done + [Apply(s, ops[i]).code]) + Replies(Apply(s, ops[i]).state, ops[i + 1..])
  {
    assert ops[i..][0] == ops[i];
    assert ops[i..][1..] == ops[i + 1..];
  }

  /** Performs the calls one after another on the exporter, collecting what
      each returned. */
  method Drive<M>(s: State<M>, ops: seq<Op<M>>) returns (t: State<M>, replies: seq<Reply>)
    ensures t == Run(s, ops)
    ensures replies == Replies(s, ops)
    ensures Valid(s) ==> Valid(t)
    ensures t.isRunning ==> s.isRunning
  {
    t := s;
    replies := [];
    var i := 0;
    while i < |ops|
      invariant 0 <= i <= |ops|
      invariant Run(t, ops[i..]) == Run(s, ops)
      invariant replies + Replies(t, ops[i..]) == Replies(s, ops)
      invariant Valid(s) ==> Valid(t)
      invariant t.isRunning ==> s.isRunning
    {
      UnfoldAt(t, ops, i, replies);
      var st := Apply(t, ops[i]);
      replies := replies + [st.code];
      t := st.state;
      i := i + 1;
    }
    assert ops[i..] == [];
  }
}
