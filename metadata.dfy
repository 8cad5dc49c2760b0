/**
  The parts of an RSpec example's metadata that the JUnit formatter reads:
  its full description, its execution result (status, run time, exception)
  and the chain of example groups that encloses it.
 */
module Metadata {

  datatype Option<T> = None | Some(value: T)

  /** The one way recording can fail: an example with no enclosing example group. */
  datatype Error = MalformedTestMetadata

  datatype Result<T> = Ok(value: T) | Err(error: Error)

  /**
    An example group's metadata: its description and the group that encloses
    it (`:example_group`), `None` at the top. Being a datatype, every chain of
    parents is finite and acyclic.
   */
  datatype Group = Group(description: string, parent: Option<Group>)

  /**
    The exception of a failed example. `backtrace` holds the lines as the host
    formatter's `format_backtrace` already produced them.
   */
  datatype Exception = Exception(message: string, backtrace: seq<string>)

  /**
    One finished example. `status` is the execution result's status string
    ("passed", "failed", "pending", or anything else the host reports);
    `runTime` is an opaque number copied into the report and never computed with.
   */
  datatype Example = Example(
    fullDescription: string,
    status: string,
    runTime: real,
    exception: Option<Exception>,
    group: Option<Group>)
}
