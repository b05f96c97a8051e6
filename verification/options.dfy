/** Small failure-carrying datatypes shared by the server and client models. */
module Options {

  /** A value that may be absent: JavaScript's `undefined`/`null` on the absent side. */
  datatype Option<+T> = None | Some(value: T)

  /** The outcome of a call into the media engine or the browser, which this model cannot see:
      either the value it produced or the message of the exception it threw. */
  datatype Engine<+T> = Done(value: T) | Failed(message: string)

  /** JavaScript truthiness of an optional string: present and not the empty string. */
  predicate Truthy(s: Option<string>) {
    s.Some? && s.value != ""
  }
}
