/** The in-memory OTLP JSON metric exporter: a buffer of exported metrics and a
    running flag, acted on by `export`, `flush`, `reset` and `shutdown`.
    The metric type `M` is opaque. Each operation is a pure function from the
    state before the call to the state after it (and the code it returns). */
module OtlpMetricJsonExporter {
  import opened ResultCodes
  import opened Options

  /** The exporter's private state: the metrics exported so far, in export
      order, and whether the exporter still accepts work. */
  datatype State<M> = State(exportedMetrics: seq<M>, isRunning: bool)

  /** The state after a call, paired with the code the call returned. */
  datatype Step<M, R> = Step(state: State<M>, code: R)

  /** The invariant every reachable state keeps: a stopped exporter buffers nothing. */
  predicate Valid<M>(s: State<M>) {
    s.isRunning || |s.exportedMetrics| == 0
  }

  /** A freshly constructed exporter: running, with nothing buffered. */
  function Init<M>(): (s: State<M>)
    ensures s.isRunning
    ensures |s.exportedMetrics| == 0
    ensures Valid(s)
  {
    State([], true)
  }

  /** `export(metrics:shouldCancel:)`: while running, appends the batch after
      everything already buffered and reports success; once stopped, refuses
      the batch with a non-retryable failure and changes nothing. The
      cancellation callback is never consulted. */
  function Export<M>(s: State<M>, metrics: seq<M>, shouldCancel: Option<() -> bool>)
    : (r: Step<M, MetricExporterResultCode>)
    ensures r.code == MetricExporterResultCode.Success <==> s.isRunning
    ensures r.state.isRunning == s.isRunning
    ensures s.isRunning ==>
              |r.state.exportedMetrics| == |s.exportedMetrics| + |metrics|
              && r.state.exportedMetrics[..|s.exportedMetrics|] == s.exportedMetrics
              && r.state.exportedMetrics[|s.exportedMetrics|..] == metrics
    ensures !s.isRunning ==> r.code == FailureNotRetryable && r.state == s
    ensures Valid(s) ==> Valid(r.state)
  {
    if !s.isRunning then
      Step(s, FailureNotRetryable)
    else
      Step(State(s.exportedMetrics + metrics, s.isRunning), MetricExporterResultCode.Success)
  }

  /** `flush()`: reports success exactly while running, a plain (span exporter)
      failure once stopped, and never touches the state. */
  function Flush<M>(s: State<M>): (r: Step<M, SpanExporterResultCode>)
    ensures r.state == s
    ensures r.code == SpanExporterResultCode.Success <==> s.isRunning
    ensures r.code == Failure <==> !s.isRunning
  {
    if !s.isRunning then Step(s, Failure) else Step(s, SpanExporterResultCode.Success)
  }

  /** `reset()`: discards the buffer; the running flag is left as it was. */
  function Reset<M>(s: State<M>): (r: State<M>)
    ensures |r.exportedMetrics| == 0
    ensures r.isRunning == s.isRunning
    ensures Valid(r)
  {
    s.(exportedMetrics := [])
  }

  /** `shutdown()`: discards the buffer and stops the exporter. */
  function Shutdown<M>(s: State<M>): (r: State<M>)
    ensures |r.exportedMetrics| == 0
    ensures !r.isRunning
    ensures Valid(r)
  {
    State([], false)
  }

  /** The result of `export` and the state it leaves do not depend on the
      cancellation callback. */
  lemma ExportIgnoresShouldCancel<M>(s: State<M>, metrics: seq<M>, c1: Option<() -> bool>, c2: Option<() -> bool>)
    ensures Export(s, metrics, c1) == Export(s, metrics, c2)
  {
  }

  /** Exporting two batches one after the other buffers the same metrics as
      exporting their concatenation once. */
  lemma ExportTwiceIsExportConcat<M>(s: State<M>, a: seq<M>, b: seq<M>, c: Option<() -> bool>)
    ensures Export(Export(s, a, c).state, b, c).state == Export(s, a + b, c).state
  {
  }

  /** Resetting twice is the same as resetting once. */
  lemma ResetIdempotent<M>(s: State<M>)
    ensures Reset(Reset(s)) == Reset(s)
  {
  }

  /** Shutting down twice is the same as shutting down once. */
  lemma ShutdownIdempotent<M>(s: State<M>)
    ensures Shutdown(Shutdown(s)) == Shutdown(s)
  {
  }

  /** After `shutdown`, each single call leaves the state as it is:
      `export` returns failureNotRetryable, `flush` returns failure, and
      `reset` and `shutdown` change nothing. */
  lemma ShutdownAbsorbsSingleCall<M>(s: State<M>, metrics: seq<M>, c: Option<() -> bool>)
    ensures Export(Shutdown(s), metrics, c) == Step(Shutdown(s), FailureNotRetryable)
    ensures Flush(Shutdown(s)) == Step(Shutdown(s), Failure)
    ensures Reset(Shutdown(s)) == Shutdown(s)
    ensures Shutdown(Shutdown(s)) == Shutdown(s)
  {
  }
}
