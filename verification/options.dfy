/** The optional-value wrapper used for every `Option<String>` field of a job. */
module Options {

  datatype Option<+T> = None | Some(value: T)
}
