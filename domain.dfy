/** The value types handed between the extractor and the converters. */
module Domain {
  import opened Results

  /** One test case: its place in the heading hierarchy, its steps and its checklist. */
  datatype Case = Case(
    majorItem: string,
    mediumItem: string,
    minorItem: string,
    validationSteps: seq<string>,
    checkpoints: seq<string>)

  /** The reason a read of the input failed (the scanner's error). */
  datatype ReadError = ReadError(reason: string)

  /**
   * A line-oriented input as a line scanner delivers it: the lines it split
   * off, and whether the read then ended normally or with a failure.
   */
  datatype Stream = Stream(lines: seq<string>, failure: Option<ReadError>)
}
