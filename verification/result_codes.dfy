/** Result codes returned by the exporter. The SDK declares them elsewhere;
    the model keeps only the cases the metric JSON exporter itself returns. */
module ResultCodes {

  /** What `export` reports for a batch of metrics. */
  datatype MetricExporterResultCode = Success | FailureNotRetryable

  /** What `flush` reports (the exporter reuses the span exporter's code). */
  datatype SpanExporterResultCode = Success | Failure
}

/** Optional values, used for the cancellation callback that `export` accepts. */
module Options {
  datatype Option<+T> = None | Some(value: T)
}
