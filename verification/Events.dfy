/** Event shapes shared by every stage of the pipeline.

    Payloads (`input`, `output`, `error`) are opaque strings: no stage looks inside
    them. Wall-clock stamps `at` are integers, standing for the total order that the
    ISO-8601 text has; `ts` is only copied. */
module Events {
  import opened Basics

  /** Wire-level framing minted by the worker bridge. */
  datatype Framing = Leaf | Open(callId: nat) | Close(callId: nat)

  datatype WireEvent = WireEvent(
    kind: string, name: string, ts: int, at: int,
    input: Option<string>, output: Option<string>, error: Option<string>,
    framing: Framing)

  /** The event after the main thread stamped `seq` and `ref`. */
  datatype SandboxEvent = SandboxEvent(
    kind: string, seqNo: nat, ref: Option<nat>, at: int, ts: int, name: string,
    input: Option<string>, output: Option<string>, error: Option<string>)

  /** Stamping keeps every field of the wire event except its framing. */
  function Stamp(w: WireEvent, seqNo: nat, ref: Option<nat>): SandboxEvent {
    SandboxEvent(w.kind, seqNo, ref, w.at, w.ts, w.name, w.input, w.output, w.error)
  }
}
