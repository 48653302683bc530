/**
  The argument vector the driver hands to ctags for one job (`run_ctags`):
  `-o <output>`, then the job's options in a fixed order, then the job's path.
  The spawn of the process itself is not modelled; this module only says which
  strings are passed and in what order.
*/
module CtagsArgs {
  import opened Options
  import opened Strings
  import opened Jobs

  const OutputFlag: string := "-o"
  const LanguagesFlag: string := "--languages="
  const LangmapFlag: string := "--langmap="
  const ExtrasFlag: string := "--extras="
  const AppendFlag: string := "--append"
  const RecurseFlag: string := "--recurse"
  const DefineFlag: string := "-D"
  const ExcludeFlag: string := "--exclude="
  const ExcludeExceptionFlag: string := "--exclude_exception="

  /** Number of option groups between the output file and the path. */
  const GroupCount: nat := 8

  /** `[flag + v]` when the field holds `v`; nothing when it is absent. */
  function ValuedArg(flag: string, value: Option<string>): seq<string> {
    match value
    case None => []
    case Some(v) => [flag + v]
  }

  /** `[flag]` when the switch is on; nothing otherwise. */
  function SwitchArg(flag: string, on: bool): seq<string> {
    if on then [flag] else []
  }

  /** `-Dsymbol='definition'` for a define with a definition, `-Dsymbol` for one without. */
  function RenderDefine(d: Define): string {
    match d.1
    case None => DefineFlag + d.0
    case Some(definition) => DefineFlag + d.0 + "='" + definition + "'"
  }

  function RenderDefines(ds: seq<Define>): (r: seq<string>)
    ensures |r| == |ds|
    ensures forall i :: 0 <= i < |ds| ==> r[i] == RenderDefine(ds[i])
  {
    if ds == [] then [] else [RenderDefine(ds[0])] + RenderDefines(ds[1..])
  }

  /**
    Option group number `n` in the order `run_ctags` pushes them:
    languages, language maps, extras, append, recurse, defines, exclude,
    exclude exception.
  */
  function Group(append: bool, job: Job, n: nat): seq<string> {
    if n == 0 then ValuedArg(LanguagesFlag, job.languages)
    else if n == 1 then ValuedArg(LangmapFlag, job.languageMaps)
    else if n == 2 then ValuedArg(ExtrasFlag, job.extras)
    else if n == 3 then SwitchArg(AppendFlag, append)
    else if n == 4 then SwitchArg(RecurseFlag, job.recurse)
    else if n == 5 then RenderDefines(job.defines)
    else if n == 6 then ValuedArg(ExcludeFlag, job.exclude)
    else if n == 7 then ValuedArg(ExcludeExceptionFlag, job.excludeException)
    else []
  }

  /** The option groups `n`, `n + 1`, ... concatenated in order. */
  function GroupsFrom(append: bool, job: Job, n: nat): seq<string>
    decreases GroupCount - n
  {
    if n >= GroupCount then [] else Group(append, job, n) + GroupsFrom(append, job, n + 1)
  }

  /** There are no groups past the last one. */
  lemma NoGroupsAfterLast(append: bool, job: Job, n: nat)
    requires n >= GroupCount
    ensures GroupsFrom(append, job, n) == []
  {
  }

  /** Every argument between the output file and the job's path, in the order `run_ctags` pushes them. */
  function OptionArgs(append: bool, job: Job): seq<string> {
    ValuedArg(LanguagesFlag, job.languages)
    + (ValuedArg(LangmapFlag, job.languageMaps)
    + (ValuedArg(ExtrasFlag, job.extras)
    + (SwitchArg(AppendFlag, append)
    + (SwitchArg(RecurseFlag, job.recurse)
    + (RenderDefines(job.defines)
    + (ValuedArg(ExcludeFlag, job.exclude)
    + ValuedArg(ExcludeExceptionFlag, job.excludeException)))))))
  }

  /** Each tail of the option arguments is one option group followed by the next tail. */
  lemma GroupsSpelledOut(append: bool, job: Job)
    ensures GroupsFrom(append, job, 0) == ValuedArg(LanguagesFlag, job.languages) + GroupsFrom(append, job, 1)
    ensures GroupsFrom(append, job, 1) == ValuedArg(LangmapFlag, job.languageMaps) + GroupsFrom(append, job, 2)
    ensures GroupsFrom(append, job, 2) == ValuedArg(ExtrasFlag, job.extras) + GroupsFrom(append, job, 3)
    ensures GroupsFrom(append, job, 3) == SwitchArg(AppendFlag, append) + GroupsFrom(append, job, 4)
    ensures GroupsFrom(append, job, 4) == SwitchArg(RecurseFlag, job.recurse) + GroupsFrom(append, job, 5)
    ensures GroupsFrom(append, job, 5) == RenderDefines(job.defines) + GroupsFrom(append, job, 6)
    ensures GroupsFrom(append, job, 6) == ValuedArg(ExcludeFlag, job.exclude) + GroupsFrom(append, job, 7)
    ensures GroupsFrom(append, job, 7) == ValuedArg(ExcludeExceptionFlag, job.excludeException) + []
  {
    NoGroupsAfterLast(append, job, 8);
    GroupsFromStep(append, job, 7);
    GroupsFromStep(append, job, 6);
    GroupsFromStep(append, job, 5);
    GroupsFromStep(append, job, 4);
    GroupsFromStep(append, job, 3);
    GroupsFromStep(append, job, 2);
    GroupsFromStep(append, job, 1);
    GroupsFromStep(append, job, 0);
  }

  /** The option arguments are the option groups taken in order. */
  lemma OptionArgsAreGroups(append: bool, job: Job)
    ensures OptionArgs(append, job) == GroupsFrom(append, job, 0)
  {
    GroupsSpelledOut(append, job);
  }

  /** Group `n` followed by the groups after it. */
  lemma GroupsFromStep(append: bool, job: Job, n: nat)
    requires n < GroupCount
    ensures GroupsFrom(append, job, n) == Group(append, job, n) + GroupsFrom(append, job, n + 1)
  {
  }

  /** The part of an argument vector between `-o <output>` and the trailing path. */
  function OptionRegion(args: seq<string>): seq<string> {
    if |args| < 3 then [] else args[2..|args| - 1]
  }

  /** The argument vector `run_ctags` passes to ctags for `job`. */
  function BuildArgs(outputFile: string, append: bool, job: Job): (r: seq<string>)
    ensures |r| == 3 + PresentCount(job) + (if append then 1 else 0)
                    + (if job.recurse then 1 else 0) + |job.defines|
    ensures r[0] == OutputFlag && r[1] == outputFile
    ensures r[|r| - 1] == job.path
    ensures OptionRegion(r) == OptionArgs(append, job)
  {
    OptionArgsLength(append, job);
    var r := [OutputFlag, outputFile] + OptionArgs(append, job) + [job.path];
    assert r[2..|r| - 1] == OptionArgs(append, job);
    r
  }

  lemma OptionArgsLength(append: bool, job: Job)
    ensures |OptionArgs(append, job)| == PresentCount(job) + (if append then 1 else 0)
                                         + (if job.recurse then 1 else 0) + |job.defines|
  {
  }

  // ---------------------------------------------------------------------
  // Reading an argument back: what kind of option a string is.

  datatype ArgKind =
    | LanguagesOpt | LangmapOpt | ExtrasOpt | AppendOpt | RecurseOpt
    | DefineOpt | ExcludeOpt | ExcludeExceptionOpt | Unrecognised

  /** The option an argument spells, judged by its text alone. */
  function Classify(a: string): ArgKind {
    if HasPrefix(a, LanguagesFlag) then LanguagesOpt
    else if HasPrefix(a, LangmapFlag) then LangmapOpt
    else if HasPrefix(a, ExtrasFlag) then ExtrasOpt
    else if a == AppendFlag then AppendOpt
    else if a == RecurseFlag then RecurseOpt
    else if HasPrefix(a, DefineFlag) then DefineOpt
    else if HasPrefix(a, ExcludeFlag) then ExcludeOpt
    else if HasPrefix(a, ExcludeExceptionFlag) then ExcludeExceptionOpt
    else Unrecognised
  }

  /** Position of each kind in the order `run_ctags` pushes options. */
  function Rank(k: ArgKind): nat {
    match k
    case LanguagesOpt => 0
    case LangmapOpt => 1
    case ExtrasOpt => 2
    case AppendOpt => 3
    case RecurseOpt => 4
    case DefineOpt => 5
    case ExcludeOpt => 6
    case ExcludeExceptionOpt => 7
    case Unrecognised => 8
  }

  /** The kind of every argument in option group `n`. */
  function GroupKind(n: nat): (k: ArgKind)
    ensures n < GroupCount ==> Rank(k) == n
  {
    if n == 0 then LanguagesOpt
    else if n == 1 then LangmapOpt
    else if n == 2 then ExtrasOpt
    else if n == 3 then AppendOpt
    else if n == 4 then RecurseOpt
    else if n == 5 then DefineOpt
    else if n == 6 then ExcludeOpt
    else if n == 7 then ExcludeExceptionOpt
    else Unrecognised
  }

  /** The text that marks an argument of kind `k` (the whole argument for the two switches). */
  function Marker(k: ArgKind): string {
    match k
    case LanguagesOpt => LanguagesFlag
    case LangmapOpt => LangmapFlag
    case ExtrasOpt => ExtrasFlag
    case AppendOpt => AppendFlag
    case RecurseOpt => RecurseFlag
    case DefineOpt => DefineFlag
    case ExcludeOpt => ExcludeFlag
    case ExcludeExceptionOpt => ExcludeExceptionFlag
    case Unrecognised => ""
  }

  /** True iff `a` is spelt as an option of kind `k`. */
  predicate Spells(a: string, k: ArgKind) {
    match k
    case AppendOpt => a == AppendFlag
    case RecurseOpt => a == RecurseFlag
    case Unrecognised => false
    case _ => HasPrefix(a, Marker(k))
  }

  /**
    The option markers are pairwise distinguishable: an argument spelt as an
    option of kind `k` is classified as `k`, whichever order the tests run in.
  */
  lemma {:induction false} SpellingDeterminesKind(a: string, k: ArgKind)
    requires Spells(a, k)
    ensures Classify(a) == k
  {
    match k
    case LanguagesOpt =>
    case LangmapOpt =>
      PrefixesDisagree(a, LangmapFlag, LanguagesFlag, 6);
    case ExtrasOpt =>
      PrefixesDisagree(a, ExtrasFlag, LanguagesFlag, 2);
      PrefixesDisagree(a, ExtrasFlag, LangmapFlag, 2);
    case AppendOpt =>
      PrefixesDisagree(a, AppendFlag, LanguagesFlag, 2);
      PrefixesDisagree(a, AppendFlag, LangmapFlag, 2);
      PrefixesDisagree(a, AppendFlag, ExtrasFlag, 2);
    case RecurseOpt =>
      PrefixesDisagree(a, RecurseFlag, LanguagesFlag, 2);
      PrefixesDisagree(a, RecurseFlag, LangmapFlag, 2);
      PrefixesDisagree(a, RecurseFlag, ExtrasFlag, 2);
    case DefineOpt =>
      PrefixesDisagree(a, DefineFlag, LanguagesFlag, 1);
      PrefixesDisagree(a, DefineFlag, LangmapFlag, 1);
      PrefixesDisagree(a, DefineFlag, ExtrasFlag, 1);
    case ExcludeOpt =>
      PrefixesDisagree(a, ExcludeFlag, LanguagesFlag, 2);
      PrefixesDisagree(a, ExcludeFlag, LangmapFlag, 2);
      PrefixesDisagree(a, ExcludeFlag, ExtrasFlag, 4);
      PrefixesDisagree(a, ExcludeFlag, DefineFlag, 1);
    case ExcludeExceptionOpt =>
      PrefixesDisagree(a, ExcludeExceptionFlag, LanguagesFlag, 2);
      PrefixesDisagree(a, ExcludeExceptionFlag, LangmapFlag, 2);
      PrefixesDisagree(a, ExcludeExceptionFlag, ExtrasFlag, 4);
      PrefixesDisagree(a, ExcludeExceptionFlag, DefineFlag, 1);
      PrefixesDisagree(a, ExcludeExceptionFlag, ExcludeFlag, 9);
  }

  lemma DefineSpelling(d: Define)
    ensures Spells(RenderDefine(d), DefineOpt)
  {
    match d.1
    case None =>
      PrefixOfConcat(DefineFlag, d.0);
    case Some(definition) =>
      assert RenderDefine(d) == DefineFlag + (d.0 + "='" + definition + "'");
      PrefixOfConcat(DefineFlag, d.0 + "='" + definition + "'");
  }

  /** Every argument of option group `n` is read back as that group's kind. */
  lemma GroupKinds(append: bool, job: Job, n: nat)
    ensures forall a :: a in Group(append, job, n) ==> Classify(a) == GroupKind(n)
  {
    var g := Group(append, job, n);
    forall a | a in g
      ensures Classify(a) == GroupKind(n)
    {
      if n == 5 {
        var i :| 0 <= i < |job.defines| && a == RenderDefines(job.defines)[i];
        DefineSpelling(job.defines[i]);
      } else {
        var v := a[|Marker(GroupKind(n))|..];
        if n != 3 && n != 4 {
          assert a == Marker(GroupKind(n)) + v;
          PrefixOfConcat(Marker(GroupKind(n)), v);
        }
      }
      SpellingDeterminesKind(a, GroupKind(n));
    }
  }

  // ---------------------------------------------------------------------
  // Occurrences: which arguments of each kind the vector holds.

  /** The arguments of `s` classified as `k`, in their order in `s`. */
  function OfKind(s: seq<string>, k: ArgKind): seq<string> {
    if s == [] then []
    else (if Classify(s[0]) == k then [s[0]] else []) + OfKind(s[1..], k)
  }

  lemma {:induction false} OfKindMembership(s: seq<string>, k: ArgKind, a: string)
    ensures a in OfKind(s, k) <==> a in s && Classify(a) == k
  {
    if s != [] {
      OfKindMembership(s[1..], k, a);
      assert s == [s[0]] + s[1..];
    }
  }

  lemma {:induction false} OfKindConcat(s: seq<string>, t: seq<string>, k: ArgKind)
    ensures OfKind(s + t, k) == OfKind(s, k) + OfKind(t, k)
  {
    if s == [] {
      assert s + t == t;
    } else {
      assert (s + t)[1..] == s[1..] + t;
      OfKindConcat(s[1..], t, k);
    }
  }

  lemma {:induction false} OfKindUniform(s: seq<string>, k: ArgKind, j: ArgKind)
    requires forall a :: a in s ==> Classify(a) == k
    ensures OfKind(s, j) == if j == k then s else []
  {
    if s != [] {
      assert s[0] in s;
      OfKindUniform(s[1..], k, j);
      assert s == [s[0]] + s[1..];
    }
  }

  lemma GroupKindOfRank(k: ArgKind)
    requires k != Unrecognised
    ensures Rank(k) < GroupCount && GroupKind(Rank(k)) == k
  {
  }

  lemma OfKindOfGroup(append: bool, job: Job, n: nat, k: ArgKind)
    ensures OfKind(Group(append, job, n), k) == if GroupKind(n) == k then Group(append, job, n) else []
  {
    GroupKinds(append, job, n);
    OfKindUniform(Group(append, job, n), GroupKind(n), k);
  }

  /** From group `n` on, the arguments of kind `k` are that kind's own group, if it comes at or after `n`. */
  predicate ByKindFrom(append: bool, job: Job, n: nat, k: ArgKind) {
    OfKind(GroupsFrom(append, job, n), k)
      == if n <= Rank(k) < GroupCount then Group(append, job, Rank(k)) else []
  }

  lemma {:induction false} GroupsFromByKind(append: bool, job: Job, n: nat, k: ArgKind)
    ensures ByKindFrom(append, job, n, k)
    decreases GroupCount - n
  {
    if n < GroupCount {
      GroupsFromByKind(append, job, n + 1, k);
      ByKindStep(append, job, n, k);
    } else {
      ByKindAfterLast(append, job, n, k);
    }
  }

  /** Past the last group, no kind has arguments. */
  lemma ByKindAfterLast(append: bool, job: Job, n: nat, k: ArgKind)
    requires n >= GroupCount
    ensures ByKindFrom(append, job, n, k)
  {
    NoGroupsAfterLast(append, job, n);
  }

  /** Group `n` adds its own arguments to its kind and nothing to any other kind. */
  lemma ByKindStep(append: bool, job: Job, n: nat, k: ArgKind)
    requires n < GroupCount && ByKindFrom(append, job, n + 1, k)
    ensures ByKindFrom(append, job, n, k)
  {
    var g := Group(append, job, n);
    var rest := GroupsFrom(append, job, n + 1);
    assert GroupsFrom(append, job, n) == g + rest;
    OfKindConcat(g, rest, k);
    OfKindOfGroup(append, job, n, k);
    if k != Unrecognised {
      GroupKindOfRank(k);
    }
  }

  /** The option arguments of kind `k` are exactly the option group of that kind. */
  lemma OptionArgsByKind(append: bool, job: Job, k: ArgKind)
    ensures OfKind(OptionArgs(append, job), k)
            == if k == Unrecognised then [] else Group(append, job, Rank(k))
  {
    OptionArgsAreGroups(append, job);
    GroupsFromByKind(append, job, 0, k);
  }

  /** The same, read off the built vector. */
  lemma RegionByKind(outputFile: string, append: bool, job: Job, k: ArgKind)
    ensures OfKind(OptionRegion(BuildArgs(outputFile, append, job)), k)
            == if k == Unrecognised then [] else Group(append, job, Rank(k))
  {
    OptionArgsByKind(append, job, k);
  }

  /** The five options that carry a value taken from a job field. */
  predicate IsValued(k: ArgKind) {
    k.LanguagesOpt? || k.LangmapOpt? || k.ExtrasOpt? || k.ExcludeOpt? || k.ExcludeExceptionOpt?
  }

  /** The job field a valued option is taken from. */
  function Field(job: Job, k: ArgKind): Option<string>
    requires IsValued(k)
  {
    match k
    case LanguagesOpt => job.languages
    case LangmapOpt => job.languageMaps
    case ExtrasOpt => job.extras
    case ExcludeOpt => job.exclude
    case ExcludeExceptionOpt => job.excludeException
  }

  /**
    Each valued option (`--languages=`, `--langmap=`, `--extras=`,
    `--exclude=`, `--exclude_exception=`) occurs in the option region exactly
    once, as the marker followed by `X`, when its field is `Some(X)`, and not
    at all when the field is `None`.
  */
  lemma ValuedOptionOccurrence(outputFile: string, append: bool, job: Job, k: ArgKind)
    requires IsValued(k)
    ensures OfKind(OptionRegion(BuildArgs(outputFile, append, job)), k)
            == if Field(job, k).Some? then [Marker(k) + Field(job, k).value] else []
  {
    RegionByKind(outputFile, append, job, k);
  }

  /** `--append` occurs, once, iff `append`; `--recurse` occurs, once, iff `job.recurse`. */
  lemma SwitchOccurrences(outputFile: string, append: bool, job: Job)
    ensures var region := OptionRegion(BuildArgs(outputFile, append, job));
      && OfKind(region, AppendOpt) == (if append then [AppendFlag] else [])
      && OfKind(region, RecurseOpt) == (if job.recurse then [RecurseFlag] else [])
      && (AppendFlag in region <==> append)
      && (RecurseFlag in region <==> job.recurse)
  {
    var region := OptionRegion(BuildArgs(outputFile, append, job));
    RegionByKind(outputFile, append, job, AppendOpt);
    RegionByKind(outputFile, append, job, RecurseOpt);
    SpellingDeterminesKind(AppendFlag, AppendOpt);
    SpellingDeterminesKind(RecurseFlag, RecurseOpt);
    OfKindMembership(region, AppendOpt, AppendFlag);
    OfKindMembership(region, RecurseOpt, RecurseFlag);
  }

  /**
    The `-D` arguments are one per define, in the order of `job.defines`, and
    the region holds nothing that is not one of the options.
  */
  lemma DefineOccurrences(outputFile: string, append: bool, job: Job)
    ensures var region := OptionRegion(BuildArgs(outputFile, append, job));
      && |OfKind(region, DefineOpt)| == |job.defines|
      && (forall i :: 0 <= i < |job.defines| ==> OfKind(region, DefineOpt)[i] == RenderDefine(job.defines[i]))
      && OfKind(region, Unrecognised) == []
  {
    var region := OptionRegion(BuildArgs(outputFile, append, job));
    assert OfKind(region, DefineOpt) == RenderDefines(job.defines) by {
      RegionByKind(outputFile, append, job, DefineOpt);
    }
    assert OfKind(region, Unrecognised) == [] by {
      RegionByKind(outputFile, append, job, Unrecognised);
    }
  }

  /**
    `--append` is among the options exactly when the job is run in append mode;
    a corollary of `SwitchOccurrences`, in the form the job loop uses.
  */
  lemma AppendIff(outputFile: string, append: bool, job: Job)
    ensures AppendFlag in OptionRegion(BuildArgs(outputFile, append, job)) <==> append
  {
    SwitchOccurrences(outputFile, append, job);
  }

  // ---------------------------------------------------------------------
  // Order: options appear group by group.

  /** Arguments of `s` never go back to an earlier option group. */
  predicate RankSorted(s: seq<string>) {
    forall i, j :: 0 <= i < j < |s| ==> Rank(Classify(s[i])) <= Rank(Classify(s[j]))
  }

  predicate RanksWithin(s: seq<string>, lo: nat, hi: nat) {
    forall a :: a in s ==> lo <= Rank(Classify(a)) < hi
  }

  lemma GroupThenSorted(g: seq<string>, k: ArgKind, rest: seq<string>)
    requires forall a :: a in g ==> Classify(a) == k
    requires RankSorted(rest) && RanksWithin(rest, Rank(k), GroupCount)
    requires Rank(k) < GroupCount
    ensures RankSorted(g + rest) && RanksWithin(g + rest, Rank(k), GroupCount)
  {
    var s := g + rest;
    forall i, j | 0 <= i < j < |s|
      ensures Rank(Classify(s[i])) <= Rank(Classify(s[j]))
    {
      if i < |g| {
        assert s[i] == g[i] && g[i] in g;
        if j < |g| {
          assert s[j] == g[j] && g[j] in g;
        } else {
          assert s[j] == rest[j - |g|] && rest[j - |g|] in rest;
        }
      } else {
        assert s[i] == rest[i - |g|] && s[j] == rest[j - |g|];
      }
    }
  }

  /** `s` is rank-sorted and holds only options of group `lo` or later. */
  predicate SortedFrom(s: seq<string>, lo: nat) {
    RankSorted(s) && RanksWithin(s, lo, GroupCount)
  }

  lemma {:induction false} GroupsFromSorted(append: bool, job: Job, n: nat)
    requires n <= GroupCount
    ensures SortedFrom(GroupsFrom(append, job, n), n)
    decreases GroupCount - n
  {
    if n < GroupCount {
      GroupsFromSorted(append, job, n + 1);
      GroupsFromSortedStep(append, job, n);
    } else {
      NoGroupsAfterLast(append, job, n);
    }
  }

  /** Putting group `n` in front of the sorted later groups keeps the whole sorted. */
  lemma GroupsFromSortedStep(append: bool, job: Job, n: nat)
    requires n < GroupCount
    requires SortedFrom(GroupsFrom(append, job, n + 1), n + 1)
    ensures SortedFrom(GroupsFrom(append, job, n), n)
  {
    var rest := GroupsFrom(append, job, n + 1);
    GroupKinds(append, job, n);
    assert RanksWithin(rest, Rank(GroupKind(n)), GroupCount);
    GroupThenSorted(Group(append, job, n), GroupKind(n), rest);
  }

  /**
    The option region lists its arguments in the fixed order languages,
    language maps, extras, append, recurse, defines, exclude, exclude
    exception, and every one of them is a recognised option.
  */
  lemma OptionOrder(outputFile: string, append: bool, job: Job)
    ensures var region := OptionRegion(BuildArgs(outputFile, append, job));
      && RankSorted(region)
      && forall a :: a in region ==> Classify(a) != Unrecognised
  {
    OptionArgsAreGroups(append, job);
    GroupsFromSorted(append, job, 0);
  }

  /** No argument after option group `n` is spelt as an option of that group. */
  lemma LaterGroupsDoNotSpell(append: bool, job: Job, n: nat)
    requires n < GroupCount
    ensures forall a :: a in GroupsFrom(append, job, n + 1) ==> !Spells(a, GroupKind(n))
  {
    GroupsFromSorted(append, job, n + 1);
    forall a | a in GroupsFrom(append, job, n + 1)
      ensures !Spells(a, GroupKind(n))
    {
      if Spells(a, GroupKind(n)) {
        SpellingDeterminesKind(a, GroupKind(n));
      }
    }
  }
}
