/**
  The driver's job loop: ctags is run once per resolved job, in list order,
  writing into one temporary tags file. The first run writes the file afresh
  and every later run appends to it.
*/
module JobLoop {
  import opened Jobs
  import opened CtagsArgs

  /** One spawn of ctags: the binary and the argument vector it is given. */
  datatype Call = Call(binary: string, args: seq<string>)

  /** The positional argument ctags indexes: the last one. */
  function Target(args: seq<string>): string {
    if |args| == 0 then "" else args[|args| - 1]
  }

  /** True iff the vector asks ctags to add to the tags file rather than rewrite it. */
  predicate Appends(args: seq<string>) {
    AppendFlag in OptionRegion(args)
  }

  /**
    The tags file after one run, seen as the list of paths whose tags it holds:
    with `--append` the run adds its target after what is there, without it the
    file is rewritten to hold the target alone.
  */
  function TagsAfterCall(content: seq<string>, args: seq<string>): seq<string> {
    (if Appends(args) then content else []) + [Target(args)]
  }

  /** The tags file after running `calls` in order, starting from `content`. */
  function TagsAfter(content: seq<string>, calls: seq<Call>): seq<string>
    decreases |calls|
  {
    if calls == [] then content else TagsAfter(TagsAfterCall(content, calls[0].args), calls[1..])
  }

  /** The jobs' paths, in list order. */
  function Paths(jobs: seq<Job>): seq<string> {
    seq(|jobs|, i requires 0 <= i < |jobs| => jobs[i].path)
  }

  /** True iff `calls` are the runs the loop makes for `jobs`: job `i` appends exactly when `i > 0`. */
  predicate RunsFor(calls: seq<Call>, binary: string, outputFile: string, jobs: seq<Job>) {
    && |calls| == |jobs|
    && forall i :: 0 <= i < |jobs| ==> calls[i] == Call(binary, BuildArgs(outputFile, i > 0, jobs[i]))
  }

  /**
    The calls the loop makes, in order. Each job is run exactly once, with the
    same binary and output file; the job at index 0 runs without `--append`,
    every later one with it; and, since ctags appends only when told to, the
    tags file ends up holding the jobs' paths in list order, whatever it held
    before.
  */
  method PlanJobs(binary: string, outputFile: string, jobs: seq<Job>) returns (calls: seq<Call>)
    ensures RunsFor(calls, binary, outputFile, jobs)
    ensures forall i :: 0 <= i < |jobs| ==> (Appends(calls[i].args) <==> i > 0)
    ensures forall i :: 0 <= i < |jobs| ==> Target(calls[i].args) == jobs[i].path
    ensures forall content :: TagsAfter(content, calls) == if jobs == [] then content else Paths(jobs)
  {
    calls := [];
    var i := 0;
    while i < |jobs|
      invariant 0 <= i <= |jobs|
      invariant |calls| == i
      invariant forall k :: 0 <= k < i ==> calls[k] == Call(binary, BuildArgs(outputFile, k > 0, jobs[k]))
    {
      var append := i > 0;
      calls := calls + [Call(binary, BuildArgs(outputFile, append, jobs[i]))];
      i := i + 1;
    }
    RunsShape(calls, binary, outputFile, jobs);
  }

  /** The paths the calls index, in call order. */
  function Targets(calls: seq<Call>): seq<string> {
    if calls == [] then [] else [Target(calls[0].args)] + Targets(calls[1..])
  }

  /** Runs that all append add their targets, in order, after whatever the file holds. */
  lemma {:induction false} AppendingRuns(content: seq<string>, calls: seq<Call>)
    requires forall i :: 0 <= i < |calls| ==> Appends(calls[i].args)
    ensures TagsAfter(content, calls) == content + Targets(calls)
    decreases |calls|
  {
    if calls != [] {
      assert Appends(calls[0].args);
      var after := TagsAfterCall(content, calls[0].args);
      assert after == content + [Target(calls[0].args)];
      AppendingRuns(after, calls[1..]);
      assert Targets(calls) == [Target(calls[0].args)] + Targets(calls[1..]);
    }
  }

  /** Calls that index the jobs' paths one by one have exactly those paths as targets. */
  lemma {:induction false} TargetsArePaths(calls: seq<Call>, jobs: seq<Job>)
    requires |calls| == |jobs|
    requires forall i :: 0 <= i < |jobs| ==> Target(calls[i].args) == jobs[i].path
    ensures Targets(calls) == Paths(jobs)
    decreases |calls|
  {
    if calls != [] {
      TargetsArePaths(calls[1..], jobs[1..]);
      assert Paths(jobs) == [jobs[0].path] + Paths(jobs[1..]);
    }
  }

  /**
    Running calls in which only the first leaves out `--append` leaves exactly
    their targets, in order, in the tags file.
  */
  lemma TagsHoldAllJobs(content: seq<string>, calls: seq<Call>, jobs: seq<Job>)
    requires |calls| == |jobs|
    requires forall i :: 0 <= i < |jobs| ==> (Appends(calls[i].args) <==> i > 0)
    requires forall i :: 0 <= i < |jobs| ==> Target(calls[i].args) == jobs[i].path
    ensures TagsAfter(content, calls) == if jobs == [] then content else Paths(jobs)
  {
    if jobs != [] {
      var first := TagsAfterCall(content, calls[0].args);
      assert first == [jobs[0].path];
      var rest := calls[1..];
      forall i | 0 <= i < |rest|
        ensures Appends(rest[i].args)
      {
        assert rest[i] == calls[i + 1];
      }
      AppendingRuns(first, rest);
      TargetsArePaths(calls, jobs);
    }
  }

  /**
    What each planned call does: it appends exactly after the first job and
    indexes that job's path, so the calls together leave the jobs' paths, in
    order, in the tags file.
  */
  lemma RunsShape(calls: seq<Call>, binary: string, outputFile: string, jobs: seq<Job>)
    requires RunsFor(calls, binary, outputFile, jobs)
    ensures forall i :: 0 <= i < |jobs| ==> (Appends(calls[i].args) <==> i > 0)
    ensures forall i :: 0 <= i < |jobs| ==> Target(calls[i].args) == jobs[i].path
    ensures forall content :: TagsAfter(content, calls) == if jobs == [] then content else Paths(jobs)
  {
    forall i | 0 <= i < |jobs|
      ensures Appends(calls[i].args) <==> i > 0
      ensures Target(calls[i].args) == jobs[i].path
    {
      AppendIff(outputFile, i > 0, jobs[i]);
    }
    forall content
      ensures TagsAfter(content, calls) == if jobs == [] then content else Paths(jobs)
    {
      TagsHoldAllJobs(content, calls, jobs);
    }
  }
}
