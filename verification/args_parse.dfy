/**
  A reference reader for the argument vectors of `CtagsArgs.BuildArgs`: it
  recovers the output file, the append flag and the job from the strings
  alone. Reading and building are inverse to each other, which pins down that
  the vector carries every field of the job and nothing else.
*/
module CtagsArgsParse {
  import opened Options
  import opened Strings
  import opened Jobs
  import opened CtagsArgs

  /** Everything one call of `run_ctags` is given apart from the binary. */
  datatype Invocation = Invocation(outputFile: string, append: bool, job: Job)

  /**
    A define whose symbol never has `=` directly followed by `'`. The rendering
    does no escaping, so for other symbols `-Dsym='def'` can be read in two
    ways (see `DefineAmbiguity`).
  */
  predicate WellFormedDefine(d: Define) {
    NoPair(d.0, '=', '\'')
  }

  predicate WellFormedJob(job: Job) {
    forall i :: 0 <= i < |job.defines| ==> WellFormedDefine(job.defines[i])
  }

  /** Takes a leading `flag + v` argument off `s`, if there is one. */
  function TakeValued(s: seq<string>, flag: string): (r: (Option<string>, seq<string>))
    ensures s == ValuedArg(flag, r.0) + r.1
  {
    if |s| > 0 && HasPrefix(s[0], flag) then
      assert s[0] == flag + s[0][|flag|..];
      assert s == [s[0]] + s[1..];
      (Some(s[0][|flag|..]), s[1..])
    else (None, s)
  }

  /** Takes a leading `flag` argument off `s`, if there is one. */
  function TakeSwitch(s: seq<string>, flag: string): (r: (bool, seq<string>))
    ensures s == SwitchArg(flag, r.0) + r.1
  {
    if |s| > 0 && s[0] == flag then
      assert s == [s[0]] + s[1..];
      (true, s[1..])
    else (false, s)
  }

  /**
    Reads the text after `-D`: `sym='def'` when it holds `='`, split at the
    first one, and `sym` alone otherwise; a `='` without a closing `'` is rejected.
  */
  function ParseDefine(body: string): (r: Option<Define>)
    ensures r.Some? ==> RenderDefine(r.value) == DefineFlag + body && WellFormedDefine(r.value)
  {
    match IndexOfPair(body, '=', '\'')
    case None => Some((body, None))
    case Some(k) =>
      if k + 3 <= |body| && body[|body| - 1] == '\'' then
        QuotedDefineParts(body, k);
        Some((body[..k], Some(body[k + 2..|body| - 1])))
      else None
  }

  /** Cutting a quoted body at its first `='` gives a define that renders back to it. */
  lemma QuotedDefineParts(body: string, k: nat)
    requires k + 3 <= |body| && body[|body| - 1] == '\''
    requires PairAt(body, k, '=', '\'') && forall j :: 0 <= j < k ==> !PairAt(body, j, '=', '\'')
    ensures var d := (body[..k], Some(body[k + 2..|body| - 1]));
      RenderDefine(d) == DefineFlag + body && WellFormedDefine(d)
  {
    SplitQuoted(body, k);
    SymbolBeforeFirstPair(body, k);
  }

  /** What comes before the first `='` holds none. */
  lemma SymbolBeforeFirstPair(body: string, k: nat)
    requires k <= |body| && forall j :: 0 <= j < k ==> !PairAt(body, j, '=', '\'')
    ensures NoPair(body[..k], '=', '\'')
  {
    forall j | 0 <= j < k
      ensures !PairAt(body[..k], j, '=', '\'')
    {
      assert !PairAt(body, j, '=', '\'');
    }
  }

  /** Takes the leading run of `-D` arguments off `s` and reads each one. */
  function TakeDefines(s: seq<string>): (r: Option<(seq<Define>, seq<string>)>)
    ensures r.Some? ==> s == RenderDefines(r.value.0) + r.value.1
    ensures r.Some? ==> forall i :: 0 <= i < |r.value.0| ==> WellFormedDefine(r.value.0[i])
  {
    if |s| > 0 && HasPrefix(s[0], DefineFlag) then
      match ParseDefine(s[0][|DefineFlag|..])
      case None => None
      case Some(d) =>
        match TakeDefines(s[1..])
        case None => None
        case Some(tail) =>
          DefineRunStep(s, d, tail.0, tail.1);
          Some(([d] + tail.0, tail.1))
    else Some(([], s))
  }

  /** One more rendered define in front of a decomposed run extends the run. */
  lemma DefineRunStep(s: seq<string>, d: Define, ds: seq<Define>, rest: seq<string>)
    requires |s| > 0 && HasPrefix(s[0], DefineFlag)
    requires RenderDefine(d) == DefineFlag + s[0][|DefineFlag|..] && WellFormedDefine(d)
    requires s[1..] == RenderDefines(ds) + rest
    requires forall i :: 0 <= i < |ds| ==> WellFormedDefine(ds[i])
    ensures s == RenderDefines([d] + ds) + rest
    ensures forall i :: 0 <= i < |[d] + ds| ==> WellFormedDefine(([d] + ds)[i])
  {
    assert s[0] == DefineFlag + s[0][|DefineFlag|..];
    assert RenderDefines([d] + ds) == [RenderDefine(d)] + RenderDefines(ds);
    assert s == [s[0]] + s[1..];
  }

  /** Reads an argument vector back into the invocation that produced it, if any did. */
  function ParseArgs(args: seq<string>): (r: Option<Invocation>)
    ensures r.Some? ==> BuildArgs(r.value.outputFile, r.value.append, r.value.job) == args
    ensures r.Some? ==> WellFormedJob(r.value.job)
  {
    if |args| < 3 || args[0] != OutputFlag then None
    else
      match ParseRegion(args[2..|args| - 1], args[|args| - 1])
      case None => None
      case Some(parsed) =>
        var inv := Invocation(args[1], parsed.0, parsed.1);
        assert BuildArgs(inv.outputFile, inv.append, inv.job)
            == [OutputFlag, args[1]] + args[2..|args| - 1] + [args[|args| - 1]];
        Reassemble(args);
        Some(inv)
  }

  lemma Reassemble(args: seq<string>)
    requires |args| >= 3
    ensures args == [args[0], args[1]] + args[2..|args| - 1] + [args[|args| - 1]]
  {
  }

  /** Reads the option region, group by group in the order they are written. */
  function ParseRegion(region: seq<string>, path: string): (r: Option<(bool, Job)>)
    ensures r.Some? ==> OptionArgs(r.value.0, r.value.1) == region
    ensures r.Some? ==> r.value.1.path == path && WellFormedJob(r.value.1)
  {
    var (languages, r0) := TakeValued(region, LanguagesFlag);
    var (languageMaps, r1) := TakeValued(r0, LangmapFlag);
    var (extras, r2) := TakeValued(r1, ExtrasFlag);
    var (append, r3) := TakeSwitch(r2, AppendFlag);
    var (recurse, r4) := TakeSwitch(r3, RecurseFlag);
    match ParseTail(r4)
    case None => None
    case Some(tail) =>
      var job := Job(path, recurse, languages, languageMaps, extras, tail.1, tail.2, tail.0);
      Some((append, job))
  }

  /** Reads the defines, exclude and exclude-exception groups, which must end the region. */
  function ParseTail(s: seq<string>): (r: Option<(seq<Define>, Option<string>, Option<string>)>)
    ensures r.Some? ==> s == RenderDefines(r.value.0) + (ValuedArg(ExcludeFlag, r.value.1)
                             + ValuedArg(ExcludeExceptionFlag, r.value.2))
    ensures r.Some? ==> forall i :: 0 <= i < |r.value.0| ==> WellFormedDefine(r.value.0[i])
  {
    match TakeDefines(s)
    case None => None
    case Some(taken) =>
      var (exclude, r0) := TakeValued(taken.1, ExcludeFlag);
      var (excludeException, r1) := TakeValued(r0, ExcludeExceptionFlag);
      if r1 != [] then None
      else
        assert r0 == ValuedArg(ExcludeExceptionFlag, excludeException);
        Some((taken.0, exclude, excludeException))
  }

  // ---------------------------------------------------------------------
  // Reading what was built gives back what it was built from.

  lemma TakeValuedOfGroup(flag: string, v: Option<string>, rest: seq<string>)
    requires rest == [] || !HasPrefix(rest[0], flag)
    ensures TakeValued(ValuedArg(flag, v) + rest, flag) == (v, rest)
  {
    var s := ValuedArg(flag, v) + rest;
    if v.Some? {
      PrefixOfConcat(flag, v.value);
      assert s[0] == flag + v.value;
      assert s[0][|flag|..] == v.value;
      assert s[1..] == rest;
    } else {
      assert s == rest;
    }
  }

  lemma TakeSwitchOfGroup(flag: string, on: bool, rest: seq<string>)
    requires rest == [] || rest[0] != flag
    ensures TakeSwitch(SwitchArg(flag, on) + rest, flag) == (on, rest)
  {
    var s := SwitchArg(flag, on) + rest;
    if on {
      assert s[0] == flag && s[1..] == rest;
    } else {
      assert s == rest;
    }
  }

  lemma ParseQuotedDefine(body: string, k: nat)
    requires IndexOfPair(body, '=', '\'') == Some(k)
    requires k + 3 <= |body| && body[|body| - 1] == '\''
    ensures ParseDefine(body) == Some((body[..k], Some(body[k + 2..|body| - 1])))
  {
  }

  lemma ParseRenderedDefine(d: Define)
    requires WellFormedDefine(d)
    ensures ParseDefine(RenderDefine(d)[|DefineFlag|..]) == Some(d)
  {
    match d.1
    case None =>
      assert RenderDefine(d)[|DefineFlag|..] == d.0;
    case Some(definition) =>
      var head := d.0 + "='";
      var body := head + definition + "'";
      assert RenderDefine(d) == DefineFlag + body;
      assert RenderDefine(d)[|DefineFlag|..] == body;
      assert body == d.0 + ("='" + definition + "'");
      IndexOfPairAfter(d.0, "='" + definition + "'", '=', '\'');
      var k := |d.0|;
      ConcatPieces(head, definition, "'");
      ConcatPieces(d.0, "='", "");
      assert head[..k] == d.0;
      assert body[..k] == head[..k];
      ParseQuotedDefine(body, k);
  }

  lemma {:induction false} TakeRenderedDefines(ds: seq<Define>, rest: seq<string>)
    requires forall i :: 0 <= i < |ds| ==> WellFormedDefine(ds[i])
    requires rest == [] || !HasPrefix(rest[0], DefineFlag)
    ensures TakeDefines(RenderDefines(ds) + rest) == Some((ds, rest))
  {
    if ds != [] {
      var s := RenderDefines(ds) + rest;
      DefineSpelling(ds[0]);
      ParseRenderedDefine(ds[0]);
      assert s[1..] == RenderDefines(ds[1..]) + rest;
      TakeRenderedDefines(ds[1..], rest);
      assert [ds[0]] + ds[1..] == ds;
    } else {
      assert RenderDefines(ds) + rest == rest;
    }
  }

  /** The argument after option group `n`, if any, is not spelt as an option of that group. */
  lemma NextDoesNotSpell(append: bool, job: Job, n: nat)
    requires n < GroupCount
    ensures var t := GroupsFrom(append, job, n + 1);
      t == [] || !Spells(t[0], GroupKind(n))
  {
    var t := GroupsFrom(append, job, n + 1);
    LaterGroupsDoNotSpell(append, job, n);
    if t != [] {
      assert t[0] in t;
    }
  }

  /** After each of the first three option groups, the next argument does not look like that group's option. */
  lemma HeadBoundaries(append: bool, job: Job)
    ensures var t := GroupsFrom(append, job, 1); t == [] || !HasPrefix(t[0], LanguagesFlag)
    ensures var t := GroupsFrom(append, job, 2); t == [] || !HasPrefix(t[0], LangmapFlag)
    ensures var t := GroupsFrom(append, job, 3); t == [] || !HasPrefix(t[0], ExtrasFlag)
  {
    var t1, t2, t3 := GroupsFrom(append, job, 1), GroupsFrom(append, job, 2), GroupsFrom(append, job, 3);
    assert t1 == [] || !HasPrefix(t1[0], LanguagesFlag) by {
      NextDoesNotSpell(append, job, 0);
    }
    assert t2 == [] || !HasPrefix(t2[0], LangmapFlag) by {
      NextDoesNotSpell(append, job, 1);
    }
    assert t3 == [] || !HasPrefix(t3[0], ExtrasFlag) by {
      NextDoesNotSpell(append, job, 2);
    }
  }

  /** After the append and the recurse group, the next argument is not that group's switch. */
  lemma SwitchBoundaries(append: bool, job: Job)
    ensures var t := GroupsFrom(append, job, 4); t == [] || t[0] != AppendFlag
    ensures var t := GroupsFrom(append, job, 5); t == [] || t[0] != RecurseFlag
  {
    NextDoesNotSpell(append, job, 3);
    NextDoesNotSpell(append, job, 4);
  }

  /** After the defines and the exclude group, the next argument does not look like that group's option. */
  lemma TailBoundaries(append: bool, job: Job)
    ensures var t := GroupsFrom(append, job, 6); t == [] || !HasPrefix(t[0], DefineFlag)
    ensures var t := GroupsFrom(append, job, 7); t == [] || !HasPrefix(t[0], ExcludeFlag)
  {
    NextDoesNotSpell(append, job, 5);
    NextDoesNotSpell(append, job, 6);
  }

  lemma ParseTailOfGroups(append: bool, job: Job)
    requires WellFormedJob(job)
    ensures ParseTail(GroupsFrom(append, job, 5)) == Some((job.defines, job.exclude, job.excludeException))
  {
    GroupsSpelledOut(append, job);
    TailBoundaries(append, job);
    TakeRenderedDefines(job.defines, GroupsFrom(append, job, 6));
    TakeValuedOfGroup(ExcludeFlag, job.exclude, GroupsFrom(append, job, 7));
    TakeValuedOfGroup(ExcludeExceptionFlag, job.excludeException, []);
  }

  lemma ParseRegionOfOptionArgs(append: bool, job: Job)
    requires WellFormedJob(job)
    ensures ParseRegion(OptionArgs(append, job), job.path) == Some((append, job))
  {
    OptionArgsAreGroups(append, job);
    GroupsSpelledOut(append, job);
    HeadBoundaries(append, job);
    SwitchBoundaries(append, job);
    TakeValuedOfGroup(LanguagesFlag, job.languages, GroupsFrom(append, job, 1));
    TakeValuedOfGroup(LangmapFlag, job.languageMaps, GroupsFrom(append, job, 2));
    TakeValuedOfGroup(ExtrasFlag, job.extras, GroupsFrom(append, job, 3));
    TakeSwitchOfGroup(AppendFlag, append, GroupsFrom(append, job, 4));
    TakeSwitchOfGroup(RecurseFlag, job.recurse, GroupsFrom(append, job, 5));
    ParseTailOfGroups(append, job);
  }

  /**
    Round trip: reading the vector built for a job gives back the output file,
    the append flag and the job, provided no define symbol contains `=`
    directly followed by `'`.
  */
  lemma ParseBuildRoundTrip(outputFile: string, append: bool, job: Job)
    requires WellFormedJob(job)
    ensures ParseArgs(BuildArgs(outputFile, append, job)) == Some(Invocation(outputFile, append, job))
  {
    var args := BuildArgs(outputFile, append, job);
    assert args[2..|args| - 1] == OptionArgs(append, job);
    ParseRegionOfOptionArgs(append, job);
  }

  /**
    Why `WellFormedJob` is needed: a symbol holding `='` renders exactly like a
    shorter symbol with a definition, so two different jobs share one vector.
  */
  lemma DefineAmbiguity()
    ensures var quoted := Job("src", false, None, None, None, None, None, [("A='b'", None)]);
            var defined := Job("src", false, None, None, None, None, None, [("A", Some("b"))]);
            quoted != defined && BuildArgs("tags", false, quoted) == BuildArgs("tags", false, defined)
  {
    assert RenderDefine(("A='b'", None)) == RenderDefine(("A", Some("b")));
  }

  /** A symbol may hold `=` as long as no `'` follows it: `-DFOO=1` reads back as the symbol `FOO=1`. */
  lemma EqualsInSymbolRoundTrip()
    ensures var job := Job("src", false, None, None, None, None, None, [("FOO=1", None)]);
            ParseArgs(BuildArgs("tags", false, job)) == Some(Invocation("tags", false, job))
  {
    var job := Job("src", false, None, None, None, None, None, [("FOO=1", None)]);
    var symbol := "FOO=1";
    forall k | 0 <= k < |symbol|
      ensures !PairAt(symbol, k, '=', '\'')
    {
    }
    assert WellFormedDefine(job.defines[0]);
    ParseBuildRoundTrip("tags", false, job);
  }
}
