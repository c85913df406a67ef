/** The usage figures a provider reports for one turn; `None` is a figure it did not report. */
module Telemetry {
  import opened Wrappers

  datatype Usage = Usage(
    measuredInput: Option<nat>,
    measuredOutput: Option<nat>,
    estimatedInput: Option<nat>,
    estimatedOutput: Option<nat>,
    costMicros: Option<nat>,
    cachedInput: Option<nat>,
    reasoning: Option<nat>)

  function Estimated(input: nat, output: nat): Usage {
    Usage(None, None, Some(input), Some(output), None, None, None)
  }
}
