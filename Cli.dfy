/**
  The `--param k=v` options of the command line (cmd/ecsceed/deploy.go):
  each option is split on '=' and gives the key before the first '=' the
  text between the first and the second '='.
 */
module Cli {
  import opened Wrappers
  import opened Text
  import opened Client

  /** strings.Split(p, "=") has at least two parts. */
  predicate WellFormed(p: string) {
    |Split(p, '=')| >= 2
  }

  function Key(p: string): string
    requires WellFormed(p)
  {
    Split(p, '=')[0]
  }

  function Value(p: string): string
    requires WellFormed(p)
  {
    Split(p, '=')[1]
  }

  /** The parameters once `opts` are added to `params`; the first malformed option stops with an error naming it. */
  function ParamsFrom(params: map<string, string>, opts: seq<string>): Result<map<string, string>, Error>
    decreases |opts|
  {
    if opts == [] then Success(params)
    else if !WellFormed(opts[0]) then Failure(BadParam(opts[0]))
    else ParamsFrom(params[Key(opts[0]) := Value(opts[0])], opts[1..])
  }

  /** The loop of the command's action, filling the map in place. */
  method ParseParams(opts: seq<string>) returns (r: Result<map<string, string>, Error>)
    ensures r == ParamsFrom(map[], opts)
  {
    var params: map<string, string> := map[];
    var i := 0;
    while i < |opts|
      invariant 0 <= i <= |opts|
      invariant ParamsFrom(map[], opts) == ParamsFrom(params, opts[i..])
    {
      assert opts[i..][1..] == opts[i + 1..];
      var e := Split(opts[i], '=');
      if |e| < 2 {
        return Failure(BadParam(opts[i]));
      }
      params := params[e[0] := e[1]];
      i := i + 1;
    }
    return Success(params);
  }

  /**
    An option is well formed exactly when it has an '='; its key is the text
    before the first '=', and its value the text between the first '=' and
    the next one (or the end): what follows a second '=' is dropped.
   */
  lemma KeyAndValue(p: string)
    ensures WellFormed(p) <==> '=' in p
    ensures WellFormed(p) ==>
      var i := FirstIndexOf(p, '=');
      var rest := p[i + 1..];
      && Key(p) == p[..i]
      && Value(p) == if '=' in rest then rest[..FirstIndexOf(rest, '=')] else rest
  {
    FirstOfSplit(p, '=');
    if '=' in p {
      FirstOfSplit(p[FirstIndexOf(p, '=') + 1..], '=');
    }
  }

  /** `k=v` with no '=' in `k` or `v` gives `k` and `v`; so `k=` gives "" and `=v` the empty key. */
  lemma KeyValueOfJoin(k: string, v: string)
    requires '=' !in k && '=' !in v
    ensures WellFormed(k + "=" + v) && Key(k + "=" + v) == k && Value(k + "=" + v) == v
  {
    SplitJoin([k, v], '=');
    assert Join([k, v], '=') == k + "=" + v;
  }

  /** The first malformed option aborts parsing, with an error naming it. */
  lemma {:induction false} FirstBadAborts(params: map<string, string>, opts: seq<string>, j: nat)
    requires j < |opts| && !WellFormed(opts[j])
    requires forall i :: 0 <= i < j ==> WellFormed(opts[i])
    ensures ParamsFrom(params, opts) == Failure(BadParam(opts[j]))
    decreases |opts|
  {
    if j > 0 {
      FirstBadAborts(params[Key(opts[0]) := Value(opts[0])], opts[1..], j - 1);
    }
  }

  /** A parse that succeeds read only well-formed options. */
  lemma {:induction false} ParsedWellFormed(params: map<string, string>, opts: seq<string>)
    requires ParamsFrom(params, opts).Success?
    ensures forall i :: 0 <= i < |opts| ==> WellFormed(opts[i])
    decreases |opts|
  {
    if opts != [] {
      ParsedWellFormed(params[Key(opts[0]) := Value(opts[0])], opts[1..]);
      forall i | 0 < i < |opts|
        ensures WellFormed(opts[i])
      {
        assert opts[i] == opts[1..][i - 1];
      }
    }
  }

  /** The parsed keys are those it started with and the keys of the options. */
  lemma {:induction false} ParsedKeys(params: map<string, string>, opts: seq<string>)
    requires ParamsFrom(params, opts).Success?
    ensures var m := ParamsFrom(params, opts).value;
      forall k :: k in m <==> k in params || exists i :: 0 <= i < |opts| && WellFormed(opts[i]) && Key(opts[i]) == k
    decreases |opts|
  {
    if opts != [] {
      var next := params[Key(opts[0]) := Value(opts[0])];
      ParsedKeys(next, opts[1..]);
      var m := ParamsFrom(params, opts).value;
      forall k
        ensures k in m <==> k in params || exists i :: 0 <= i < |opts| && WellFormed(opts[i]) && Key(opts[i]) == k
      {
        if exists i :: 0 <= i < |opts[1..]| && WellFormed(opts[1..][i]) && Key(opts[1..][i]) == k {
          var i :| 0 <= i < |opts[1..]| && WellFormed(opts[1..][i]) && Key(opts[1..][i]) == k;
          assert opts[i + 1] == opts[1..][i];
        }
        if exists i :: 0 <= i < |opts| && WellFormed(opts[i]) && Key(opts[i]) == k {
          var i :| 0 <= i < |opts| && WellFormed(opts[i]) && Key(opts[i]) == k;
          if i > 0 {
            assert opts[1..][i - 1] == opts[i];
          }
        }
      }
    }
  }

  /** The option with no later option of the same key: the parsed value of its key is its value. */
  ghost predicate LastOfKey(opts: seq<string>, i: int) {
    && 0 <= i < |opts| && WellFormed(opts[i])
    && forall j :: i < j < |opts| && WellFormed(opts[j]) ==> Key(opts[j]) != Key(opts[i])
  }

  /** A later duplicate key overwrites an earlier one: each key gets the value of its last option. */
  lemma {:induction false} LastWins(params: map<string, string>, opts: seq<string>, i: nat)
    requires ParamsFrom(params, opts).Success?
    requires LastOfKey(opts, i)
    ensures var m := ParamsFrom(params, opts).value;
      Key(opts[i]) in m && m[Key(opts[i])] == Value(opts[i])
    decreases |opts|
  {
    var next := params[Key(opts[0]) := Value(opts[0])];
    if i > 0 {
      assert opts[1..][i - 1] == opts[i];
      forall j | i - 1 < j < |opts[1..]| && WellFormed(opts[1..][j])
        ensures Key(opts[1..][j]) != Key(opts[1..][i - 1])
      {
        assert opts[1..][j] == opts[j + 1];
      }
      LastWins(next, opts[1..], i - 1);
    } else {
      ParsedKept(next, opts[1..], Key(opts[0]));
    }
  }

  /** A key of the starting map that no option names keeps its value. */
  lemma {:induction false} ParsedKept(params: map<string, string>, opts: seq<string>, k: string)
    requires ParamsFrom(params, opts).Success?
    requires k in params && forall i :: 0 <= i < |opts| && WellFormed(opts[i]) ==> Key(opts[i]) != k
    ensures var m := ParamsFrom(params, opts).value;
      k in m && m[k] == params[k]
    decreases |opts|
  {
    if opts != [] {
      var next := params[Key(opts[0]) := Value(opts[0])];
      forall i | 0 <= i < |opts[1..]| && WellFormed(opts[1..][i])
        ensures Key(opts[1..][i]) != k
      {
        assert opts[1..][i] == opts[i + 1];
      }
      ParsedKept(next, opts[1..], k);
    }
  }
}
