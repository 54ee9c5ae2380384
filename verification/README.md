# OTLP JSON metric exporter — Dafny model

This project models `OtlpMetricJsonExporter` from the Swift OpenTelemetry
exporters. It is an in-memory metric exporter. Its state is a buffer of
exported metrics, kept in export order, and a running flag. Four calls act on
that state:

- `export(metrics:shouldCancel:)` appends a batch while the exporter is running.
- `flush()` reports whether the exporter is running.
- `reset()` empties the buffer.
- `shutdown()` empties the buffer and stops the exporter for good.

The metric type is an opaque type parameter `M`. Each call is a pure function
from the state before it to the state after it, paired with the code it
returns (module `OtlpMetricJsonExporter`). Module `ExporterSessions` models
one exporter used by a sequence of calls made one after another. It proves
the facts that span several calls against reference definitions that do not
mention the state:

- which batches were exported (`Batches`);
- the calls after the last buffer-emptying call (`AfterLastClear`);
- whether any call was a `shutdown` (`HasShutdown`).

The two result enums come from the SDK; module `ResultCodes` holds the cases
the exporter returns. Module `Options` holds the optional type used for the
cancellation callback.

After `shutdown`, `export` returns `.failureNotRetryable`, but `flush`
returns the span exporter code `.failure` (OtlpMetricJsonExporter.swift:27,
35). The model follows the code.

## Model

| member | source | states |
|---|---|---|
| OtlpMetricJsonExporter.Init | Sources/Exporters/OpenTelemetryProtocol/metric/OtlpMetricJsonExporter.swift:11-24 | A fresh exporter is running and its buffer is empty. |
| OtlpMetricJsonExporter.Export | Sources/Exporters/OpenTelemetryProtocol/metric/OtlpMetricJsonExporter.swift:26-32 | It returns success exactly when running, and never changes the flag. While running, the new buffer has the old buffer as its prefix and the batch as the rest, so its length is the sum. When stopped, it returns failureNotRetryable and leaves the state unchanged. It keeps the invariant that a stopped exporter buffers nothing. |
| OtlpMetricJsonExporter.Flush | Sources/Exporters/OpenTelemetryProtocol/metric/OtlpMetricJsonExporter.swift:34-37 | The state is unchanged. It returns success if and only if running, and failure if and only if stopped. |
| OtlpMetricJsonExporter.Reset | Sources/Exporters/OpenTelemetryProtocol/metric/OtlpMetricJsonExporter.swift:39-41 | The buffer becomes empty and the running flag keeps its value. |
| OtlpMetricJsonExporter.Shutdown | Sources/Exporters/OpenTelemetryProtocol/metric/OtlpMetricJsonExporter.swift:43-46 | The buffer becomes empty and the exporter is stopped. |
| OtlpMetricJsonExporter.ExportIgnoresShouldCancel | Sources/Exporters/OpenTelemetryProtocol/metric/OtlpMetricJsonExporter.swift:26-31 | The code and state that `export` produces are the same for any two cancellation callbacks. |
| OtlpMetricJsonExporter.ExportTwiceIsExportConcat | Sources/Exporters/OpenTelemetryProtocol/metric/OtlpMetricJsonExporter.swift:29 | Exporting batch a and then batch b leaves the same state as exporting a followed by b in one call. |
| OtlpMetricJsonExporter.ResetIdempotent | Sources/Exporters/OpenTelemetryProtocol/metric/OtlpMetricJsonExporter.swift:39-41 | A second `reset` changes nothing. |
| OtlpMetricJsonExporter.ShutdownIdempotent | Sources/Exporters/OpenTelemetryProtocol/metric/OtlpMetricJsonExporter.swift:43-46 | A second `shutdown` changes nothing. |
| OtlpMetricJsonExporter.ShutdownAbsorbsSingleCall | Sources/Exporters/OpenTelemetryProtocol/metric/OtlpMetricJsonExporter.swift:26-46 | After `shutdown`, each single call leaves the state unchanged. `export` returns failureNotRetryable and `flush` returns failure. |
| ExporterSessions.Apply | Sources/Exporters/OpenTelemetryProtocol/metric/OtlpMetricJsonExporter.swift:26-46 | Every call can only switch the flag off and keeps the invariant. `export` and `flush` return their own kinds of code. `reset` and `shutdown` leave an empty buffer. |
| ExporterSessions.Run | Sources/Exporters/OpenTelemetryProtocol/metric/OtlpMetricJsonExporter.swift:26-46 | It has no contract. It defines the state left by calls made one after another; the session lemmas are stated over it. |
| ExporterSessions.Replies | Sources/Exporters/OpenTelemetryProtocol/metric/OtlpMetricJsonExporter.swift:26-46 | A sequence of calls returns one reply per call, of the kind that call returns. |
| ExporterSessions.RunReplies | Sources/Exporters/OpenTelemetryProtocol/metric/OtlpMetricJsonExporter.swift:26-46 | For every call in any sequence, the code depends on whether the exporter was running at the start and no earlier call was `shutdown`. If so, `export` and `flush` return success; if not, `export` returns failureNotRetryable and `flush` returns failure. `reset` and `shutdown` return nothing. |
| ExporterSessions.FreshExporterReplies | Sources/Exporters/OpenTelemetryProtocol/metric/OtlpMetricJsonExporter.swift:11-46 | Starting from a fresh exporter, every `export` and `flush` succeeds until the first `shutdown`. From then on, `export` returns failureNotRetryable and `flush` returns failure. |
| ExporterSessions.RunRunningFlag | Sources/Exporters/OpenTelemetryProtocol/metric/OtlpMetricJsonExporter.swift:12-45 | After any calls, the exporter is running if and only if it was running before and none of the calls was `shutdown`. The flag is never set back to true. |
| ExporterSessions.RunKeepsValid | Sources/Exporters/OpenTelemetryProtocol/metric/OtlpMetricJsonExporter.swift:26-46 | Any sequence of calls keeps the invariant that a stopped exporter buffers nothing. |
| ExporterSessions.ExportsConcatenate | Sources/Exporters/OpenTelemetryProtocol/metric/OtlpMetricJsonExporter.swift:26-31 | A sequence of exports on a running exporter leaves it running. The buffer becomes the old buffer followed by all the batches, concatenated in call order. |
| ExporterSessions.RunBuffer | Sources/Exporters/OpenTelemetryProtocol/metric/OtlpMetricJsonExporter.swift:26-46 | Starting from any state that keeps the invariant, the buffer after any calls is exactly: empty if stopped; otherwise the batches exported after the last `reset`/`shutdown`, in call order, preceded by the initial buffer only if no call emptied it. |
| ExporterSessions.StoppedIsAbsorbing | Sources/Exporters/OpenTelemetryProtocol/metric/OtlpMetricJsonExporter.swift:26-46 | After `shutdown`, any sequence of calls leaves the exporter stopped with an empty buffer. |
| ExporterSessions.StoppedReplies | Sources/Exporters/OpenTelemetryProtocol/metric/OtlpMetricJsonExporter.swift:26-46 | After `shutdown`, every later `export` returns failureNotRetryable and every later `flush` returns failure. |
| ExporterSessions.FreshExporterRun | Sources/Exporters/OpenTelemetryProtocol/metric/OtlpMetricJsonExporter.swift:11-46 | Start from a fresh exporter and make any calls. The exporter is running if and only if no call was `shutdown`. The buffer then holds exactly the batches exported since the last `reset`, in call order; after a `shutdown` it is empty. |
| ExporterSessions.Drive | Sources/Exporters/OpenTelemetryProtocol/metric/OtlpMetricJsonExporter.swift:26-46 | Making the calls one at a time gives the state and replies of the whole sequence. The invariant is kept and the flag is only ever switched off. |

## Left out

- `getExportedMetrics()` (OtlpMetricJsonExporter.swift:15-20) is not modelled. It converts the buffer with `MetricsAdapter.toProtoResourceMetrics` into a generated protobuf request. That adapter and the protobuf types are not part of this model.
- The contents of `Metric` are not modelled. Metrics are opaque values that the exporter only stores and discards.
- The cancellation callback is never invoked by the exporter. It is carried as an opaque optional closure and ignored, as in the code.
- The result enums are declared in the SDK, and that declaration is not part of this model. Only the cases the exporter returns are modelled.
- Thread safety is not modelled. The class has no locking, so the model covers only sequential calls and claims nothing about concurrent `export`/`shutdown`.
