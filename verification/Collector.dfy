/** What a collector run hands to the reporter. Times are nanoseconds after Go's zero time, which is 0. */
module Collector {
  import opened Sequences

  type Time = int

  /** A metrics group with its optional time stamps. */
  datatype Group = Group(id: int, start: Option<Time>, end: Option<Time>)

  /** One collector execution; failed stands for a non-nil error. */
  datatype Result = Result(name: string, runSeq: int, due: Time, failed: bool, groups: seq<Group>)
}
