/** A fully resolved unit of indexing work, as the tag generator's driver consumes it. */
module Jobs {
  import opened Options

  /** A preprocessor define: a symbol and an optional replacement text. */
  type Define = (string, Option<string>)

  /** One resolved job: the fields `run_ctags` reads, in the driver's own terms. */
  datatype Job = Job(
    path: string,
    recurse: bool,
    languages: Option<string>,
    languageMaps: Option<string>,
    extras: Option<string>,
    exclude: Option<string>,
    excludeException: Option<string>,
    defines: seq<Define>
  )

  function Present<T>(o: Option<T>): nat {
    if o.Some? then 1 else 0
  }

  /** How many of the five optional string fields of `job` carry a value. */
  function PresentCount(job: Job): nat {
    Present(job.languages) + Present(job.languageMaps) + Present(job.extras)
    + Present(job.exclude) + Present(job.excludeException)
  }
}
