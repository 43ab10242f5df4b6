/** The values exchanged at the `/api/run-code` boundary of index.js. */
module Records {

  /** The structured input of one test case; the one problem takes a single integer. */
  datatype Input = Input(num: int)

  /** One test case, in the order the caller supplied it. Its `description` field is
      never read by the core and is not modelled. */
  datatype TestCase = TestCase(input: Input, expected: string)

  /** What the parsers report for one test case. */
  datatype ExecutionResult = ExecutionResult(passed: bool, output: string, executionTime: nat)

  /** The record a parser starts each test case from (index.js lines 186-188 and
      240-242); it survives unchanged when nothing for the case is found. */
  const Default := ExecutionResult(false, "", 0)
}
