/**
  The name shown in the "Parsing ..." message: the config file as the user
  named it, seen from the directory the driver started in. A relative name
  found `n` directories up is shown behind `n` copies of `..`; an absolute
  name is shown as the located path. Paths are Unix paths (separator `/`).
*/
module DisplayPath {

  /** True iff `p` is an absolute path: it starts at the root. */
  predicate IsAbsolute(p: string) {
    |p| > 0 && p[0] == '/'
  }

  /**
    Appending a component to a path buffer: an absolute component replaces the
    buffer; otherwise a separator goes in between unless the buffer is empty or
    already ends with one.
  */
  function Push(p: string, c: string): string {
    if IsAbsolute(c) then c
    else if p == [] || p[|p| - 1] == '/' then p + c
    else p + "/" + c
  }

  /** `n` copies of `../`. */
  function UpPrefix(n: nat): (r: string)
    ensures |r| == 3 * n
  {
    if n == 0 then "" else "../" + UpPrefix(n - 1)
  }

  /** The buffer after pushing `..` `n` times onto an empty one: `UpPrefix(n)` without its last `/`. */
  function UpChain(n: nat): string {
    if n == 0 then "" else UpPrefix(n)[..3 * n - 1]
  }

  lemma {:induction false} UpPrefixSnoc(n: nat)
    ensures UpPrefix(n + 1) == UpPrefix(n) + "../"
  {
    if n > 0 {
      UpPrefixSnoc(n - 1);
      assert UpPrefix(n + 1) == "../" + (UpPrefix(n - 1) + "../");
    }
  }

  /** A non-empty run of `../` is the chain of `..` components, ending in a dot, plus a final `/`. */
  lemma UpPrefixEnds(n: nat)
    requires n > 0
    ensures var chain := UpChain(n);
      UpPrefix(n) == chain + "/" && |chain| > 0 && chain[|chain| - 1] == '.'
  {
    var w := UpPrefix(n - 1);
    assert UpPrefix(n) == w + "../" by {
      UpPrefixSnoc(n - 1);
    }
    var chain := w + "..";
    assert (w + "../")[..3 * n - 1] == chain;
    assert w + "../" == chain + "/";
  }

  lemma UpChainStep(n: nat)
    ensures Push(UpChain(n), "..") == UpChain(n + 1)
  {
    var u := UpPrefix(n + 1);
    assert u == UpPrefix(n) + "../" by {
      UpPrefixSnoc(n);
    }
    if n > 0 {
      UpPrefixEnds(n);
      assert u[..3 * (n + 1) - 1] == UpPrefix(n) + "..";
    }
  }

  lemma UpChainThen(n: nat, name: string)
    requires !IsAbsolute(name)
    ensures Push(UpChain(n), name) == UpPrefix(n) + name
  {
    if n > 0 {
      UpPrefixEnds(n);
      var chain := UpChain(n);
      assert Push(chain, name) == chain + "/" + name;
    }
  }

  /**
    The path shown for a config file named `configName` and located at
    `located`, `ancestorCount` directories above the starting one.
  */
  method ParsingLabel(configName: string, located: string, ancestorCount: nat) returns (shown: string)
    ensures IsAbsolute(configName) ==> shown == located
    ensures !IsAbsolute(configName) ==> shown == UpPrefix(ancestorCount) + configName
  {
    if IsAbsolute(configName) {
      shown := located;
    } else {
      var p := "";
      for i := 0 to ancestorCount
        invariant p == UpChain(i)
      {
        UpChainStep(i);
        p := Push(p, "..");
      }
      UpChainThen(ancestorCount, configName);
      shown := Push(p, configName);
    }
  }

  /** The shown relative name is `ancestorCount` groups of `../` and then the name itself. */
  lemma LabelShape(configName: string, ancestorCount: nat, i: nat)
    requires !IsAbsolute(configName) && i < ancestorCount
    ensures var shown := UpPrefix(ancestorCount) + configName;
      shown[3 * i..3 * i + 3] == "../" && shown[3 * ancestorCount..] == configName
  {
    UpPrefixBlock(ancestorCount, i);
  }

  lemma {:induction false} UpPrefixBlock(n: nat, i: nat)
    requires i < n
    ensures UpPrefix(n)[3 * i..3 * i + 3] == "../"
  {
    if i > 0 {
      UpPrefixBlock(n - 1, i - 1);
      assert UpPrefix(n)[3 * i..3 * i + 3] == UpPrefix(n - 1)[3 * (i - 1)..3 * (i - 1) + 3];
    }
  }
}
