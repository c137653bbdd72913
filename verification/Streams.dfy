/** Entry streams: what reading a table file yields, entry by entry, until its end or a read error. */
module Streams {
  import opened Bytes
  import opened Wrappers
  import opened Runs

  type Item = (Key, Entry)

  /** The entries still to come, and the error that ends them, if one does. */
  datatype Stream = Stream(rest: Run, fault: Option<Error>)

  function Next(s: Stream): (Option<Result<Item>>, Stream)
  {
    if s.rest != [] then (Some(Ok(s.rest[0])), s.(rest := s.rest[1..]))
    else if s.fault.Some? then (Some(Err(s.fault.value)), s)
    else (None, s)
  }

  predicate Faulty(streams: seq<Stream>)
  {
    exists i :: 0 <= i < |streams| && streams[i].fault.Some?
  }

  predicate FaultOf(streams: seq<Stream>, error: Error)
  {
    exists i :: 0 <= i < |streams| && streams[i].fault == Some(error)
  }

  function Entries(streams: seq<Stream>): (runs: seq<Run>)
    ensures |runs| == |streams|
    ensures forall i :: 0 <= i < |runs| ==> runs[i] == streams[i].rest
  {
    if streams == [] then [] else [streams[0].rest] + Entries(streams[1..])
  }
}
