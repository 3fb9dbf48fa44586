/**
 * Matching of command line tokens to the arguments of a command format
 * (controller/app/cmdline/src/cli_command_format.cpp and cli_argument.cpp).  What makes a token acceptable to an
 * argument is a parameter.
 */
module CliMatcher {
  import opened Basics

  const UINT_MAX: nat := 0xffff_ffff
  const INT_MAX: nat := 0x7fff_ffff

  type Token = string

  /** How often an argument matches, and what it accepts. */
  datatype ArgSpec = ArgSpec(min: nat, max: nat, accepts: Token -> bool)

  /** The number of tokens at the front that an argument takes: as many as it accepts, up to its maximum. */
  function Munch(accepts: Token -> bool, max: nat, tokens: seq<Token>): (k: nat)
    ensures k <= max && k <= |tokens|
    ensures forall i :: 0 <= i < k ==> accepts(tokens[i])
    ensures k < max && k < |tokens| ==> !accepts(tokens[k])
  {
    if max == 0 || tokens == [] || !accepts(tokens[0]) then 0 else 1 + Munch(accepts, max - 1, tokens[1..])
  }

  function Cons(vals: seq<Token>, rest: Option<seq<seq<Token>>>): Option<seq<seq<Token>>> {
    match rest
    case None => None
    case Some(more) => Some([vals] + more)
  }

  /** The greedy assignment of tokens to arguments, if it uses up the tokens and satisfies every minimum. */
  function Greedy(specs: seq<ArgSpec>, tokens: seq<Token>): Option<seq<seq<Token>>>
    decreases |specs|, 1
  {
    if specs == [] then (if tokens == [] then Some([]) else None)
    else Resume(specs, [], tokens)
  }

  /** The same, when the first argument has already taken some tokens. */
  function Resume(specs: seq<ArgSpec>, taken: seq<Token>, tokens: seq<Token>): Option<seq<seq<Token>>>
    requires specs != []
    decreases |specs|, 0
  {
    var k := Munch(specs[0].accepts, if |taken| <= specs[0].max then specs[0].max - |taken| else 0, tokens);
    if |taken| + k < specs[0].min then None
    else Cons(taken + tokens[..k], Greedy(specs[1..], tokens[k..]))
  }

  // ------------------------------------------------------------------------------------- what greedy finds

  function Flatten(vals: seq<seq<Token>>): seq<Token> {
    if vals == [] then [] else vals[0] + Flatten(vals[1..])
  }

  ghost predicate Allows(spec: ArgSpec, vals: seq<Token>) {
    spec.min <= |vals| <= spec.max && forall j :: 0 <= j < |vals| ==> spec.accepts(vals[j])
  }

  /** An argument followed by these tokens could not have taken one more. */
  predicate TakesAllItCan(spec: ArgSpec, vals: seq<Token>, later: seq<Token>) {
    |vals| == spec.max || later == [] || !spec.accepts(later[0])
  }

  /** The tokens split among the arguments, in order, each taking an allowed number of tokens that it accepts. */
  ghost predicate IsSplit(specs: seq<ArgSpec>, vals: seq<seq<Token>>, tokens: seq<Token>) {
    && |vals| == |specs|
    && Flatten(vals) == tokens
    && forall i :: 0 <= i < |specs| ==> Allows(specs[i], vals[i])
  }

  ghost predicate IsMaximal(specs: seq<ArgSpec>, vals: seq<seq<Token>>) {
    && |vals| == |specs|
    && forall i :: 0 <= i < |specs| ==> TakesAllItCan(specs[i], vals[i], Flatten(vals[i + 1..]))
  }

  ghost predicate IsGreedySplit(specs: seq<ArgSpec>, vals: seq<seq<Token>>, tokens: seq<Token>) {
    IsSplit(specs, vals, tokens) && IsMaximal(specs, vals)
  }

  /** A greedy split is a greedy first argument and a greedy split of what it leaves. */
  lemma GreedySplitUnfolds(specs: seq<ArgSpec>, vals: seq<seq<Token>>, tokens: seq<Token>)
    requires specs != [] && vals != []
    ensures IsGreedySplit(specs, vals, tokens) <==>
            && vals[0] <= tokens
            && Allows(specs[0], vals[0])
            && TakesAllItCan(specs[0], vals[0], tokens[|vals[0]|..])
            && IsGreedySplit(specs[1..], vals[1..], tokens[|vals[0]|..])
  {
    var v, vs := vals[0], vals[1..];
    assert vals[0 + 1..] == vs;
    if IsGreedySplit(specs, vals, tokens) {
      assert tokens[|v|..] == Flatten(vs);
      assert TakesAllItCan(specs[0], vals[0], Flatten(vals[0 + 1..]));
      forall i | 0 <= i < |specs| - 1
        ensures Allows(specs[1..][i], vs[i]) && TakesAllItCan(specs[1..][i], vs[i], Flatten(vs[i + 1..]))
      {
        assert vs[i + 1..] == vals[(i + 1) + 1..];
        assert Allows(specs[i + 1], vals[i + 1]) &&
               TakesAllItCan(specs[i + 1], vals[i + 1], Flatten(vals[(i + 1) + 1..]));
      }
    }
    if v <= tokens && Allows(specs[0], v) && TakesAllItCan(specs[0], v, tokens[|v|..]) &&
       IsGreedySplit(specs[1..], vs, tokens[|v|..]) {
      assert tokens == v + tokens[|v|..];
      forall i | 0 <= i < |specs|
        ensures Allows(specs[i], vals[i]) && TakesAllItCan(specs[i], vals[i], Flatten(vals[i + 1..]))
      {
        if i > 0 {
          assert vs[(i - 1) + 1..] == vals[i + 1..];
          assert Allows(specs[1..][i - 1], vs[i - 1]) &&
                 TakesAllItCan(specs[1..][i - 1], vs[i - 1], Flatten(vs[(i - 1) + 1..]));
        }
      }
    }
  }

  /** Greedy matching succeeds exactly with a split in which every argument takes all it can. */
  lemma {:induction false} GreedyFindsTheMaximalSplit(specs: seq<ArgSpec>, tokens: seq<Token>, vals: seq<seq<Token>>)
    ensures Greedy(specs, tokens) == Some(vals) <==> IsGreedySplit(specs, vals, tokens)
    decreases |specs|
  {
    if specs != [] && vals != [] {
      var k := Munch(specs[0].accepts, specs[0].max, tokens);
      assert [] + tokens[..k] == tokens[..k];
      GreedySplitUnfolds(specs, vals, tokens);
      GreedyFindsTheMaximalSplit(specs[1..], tokens[k..], vals[1..]);
      assert vals == [vals[0]] + vals[1..];
      hide IsGreedySplit;
      if vals[0] <= tokens && Allows(specs[0], vals[0]) && TakesAllItCan(specs[0], vals[0], tokens[|vals[0]|..]) {
        MunchIsUnique(specs[0], vals[0], tokens);
      }
    }
  }

  lemma MunchIsUnique(spec: ArgSpec, v: seq<Token>, tokens: seq<Token>)
    requires v <= tokens && Allows(spec, v) && TakesAllItCan(spec, v, tokens[|v|..])
    ensures |v| == Munch(spec.accepts, spec.max, tokens)
  {
    var k := Munch(spec.accepts, spec.max, tokens);
    assert forall i :: 0 <= i < |v| ==> v[i] == tokens[i];
  }

  // --------------------------------------------------------------------------------------- when greedy is enough

  /** Every argument but the last matches a fixed number of times. */
  ghost predicate FixedButLast(specs: seq<ArgSpec>) {
    forall i :: 0 <= i < |specs| - 1 ==> specs[i].min == specs[i].max
  }

  /** For such arguments greedy matching finds a split whenever there is one. */
  lemma GreedyIsCompleteWhenFixedButLast(specs: seq<ArgSpec>, tokens: seq<Token>)
    requires FixedButLast(specs)
    ensures Greedy(specs, tokens).Some? <==> exists vals :: IsSplit(specs, vals, tokens)
  {
    if Greedy(specs, tokens).Some? {
      GreedyFindsTheMaximalSplit(specs, tokens, Greedy(specs, tokens).value);
    }
    forall vals | IsSplit(specs, vals, tokens) ensures Greedy(specs, tokens).Some? {
      forall i | 0 <= i < |specs| ensures TakesAllItCan(specs[i], vals[i], Flatten(vals[i + 1..])) {
        assert Allows(specs[i], vals[i]);
        if i == |specs| - 1 {
          assert vals[i + 1..] == [];
        }
      }
      GreedyFindsTheMaximalSplit(specs, tokens, vals);
    }
  }

  /** What an argument is declared with, apart from the tokens it accepts. */
  datatype Limits = Limits(min: nat, max: nat)

  function LimitsOf(specs: seq<ArgSpec>): seq<Limits> {
    seq(|specs|, i requires 0 <= i < |specs| => Limits(specs[i].min, specs[i].max))
  }

  /** An argument that need not stop at its minimum is followed by none that has to match. */
  ghost predicate NoneStarves(limits: seq<Limits>) {
    forall i, j :: 0 <= i < j < |limits| ==> limits[i].min >= limits[i].max || limits[j].min == 0
  }

  /** A split is some tokens for the first argument and a split of the others. */
  lemma SplitUnfolds(specs: seq<ArgSpec>, vals: seq<seq<Token>>, tokens: seq<Token>)
    requires specs != [] && vals != []
    ensures IsSplit(specs, vals, tokens) <==>
            && vals[0] <= tokens
            && Allows(specs[0], vals[0])
            && IsSplit(specs[1..], vals[1..], tokens[|vals[0]|..])
  {
    hide Allows;
    var v, vs := vals[0], vals[1..];
    if IsSplit(specs, vals, tokens) {
      assert tokens[|v|..] == Flatten(vs);
      forall i | 0 <= i < |specs| - 1 ensures Allows(specs[1..][i], vs[i]) {
        assert Allows(specs[i + 1], vals[i + 1]);
      }
    }
    if v <= tokens && Allows(specs[0], v) && IsSplit(specs[1..], vs, tokens[|v|..]) {
      assert tokens == v + tokens[|v|..];
      forall i | 0 <= i < |specs| ensures Allows(specs[i], vals[i]) {
        assert i > 0 ==> Allows(specs[1..][i - 1], vs[i - 1]);
      }
    }
  }

  /** If no argument has to match, a split stays one when tokens are cut off at the front. */
  lemma {:induction false} CutAtTheFront(specs: seq<ArgSpec>, vals: seq<seq<Token>>, tokens: seq<Token>, d: nat)
      returns (cut: seq<seq<Token>>)
    requires IsSplit(specs, vals, tokens) && d <= |tokens| && forall i :: 0 <= i < |specs| ==> specs[i].min == 0
    ensures IsSplit(specs, cut, tokens[d..])
    decreases |specs|
  {
    if specs == [] {
      cut := [];
    } else {
      var v, vs := vals[0], vals[1..];
      SplitUnfolds(specs, vals, tokens);
      if d <= |v| {
        cut := [v[d..]] + vs;
        assert tokens[d..][|v| - d..] == tokens[|v|..];
      } else {
        var more := CutAtTheFront(specs[1..], vs, tokens[|v|..], d - |v|);
        cut := [[]] + more;
        assert tokens[|v|..][d - |v|..] == tokens[d..] == tokens[d..][0..];
      }
      assert cut[1..] == if d <= |v| then vs else cut[1..];
      SplitUnfolds(specs, cut, tokens[d..]);
    }
  }

  lemma MunchCovers(spec: ArgSpec, v: seq<Token>, tokens: seq<Token>)
    requires v <= tokens && Allows(spec, v)
    ensures Munch(spec.accepts, spec.max, tokens) >= |v|
  {
    assert forall i :: 0 <= i < |v| ==> v[i] == tokens[i];
  }

  lemma GreedyGoesOn(specs: seq<ArgSpec>, tokens: seq<Token>)
    requires specs != [] && Munch(specs[0].accepts, specs[0].max, tokens) >= specs[0].min
    requires Greedy(specs[1..], tokens[Munch(specs[0].accepts, specs[0].max, tokens)..]).Some?
    ensures Greedy(specs, tokens).Some?
  {
  }

  lemma NoneStarvesLater(specs: seq<ArgSpec>)
    requires specs != [] && NoneStarves(LimitsOf(specs))
    ensures NoneStarves(LimitsOf(specs[1..]))
    ensures specs[0].min < specs[0].max ==> forall j :: 0 <= j < |specs| - 1 ==> specs[1..][j].min == 0
  {
    assert LimitsOf(specs[1..]) == LimitsOf(specs)[1..];
    forall j | 0 <= j < |specs| - 1 && specs[0].min < specs[0].max ensures specs[1..][j].min == 0 {
      assert LimitsOf(specs)[0].min < LimitsOf(specs)[0].max && LimitsOf(specs)[j + 1].min == 0;
    }
  }

  lemma {:induction false} SplitIsFound(specs: seq<ArgSpec>, vals: seq<seq<Token>>, tokens: seq<Token>)
    requires NoneStarves(LimitsOf(specs)) && IsSplit(specs, vals, tokens)
    ensures Greedy(specs, tokens).Some?
    decreases |specs|
  {
    if specs != [] {
      var k := Munch(specs[0].accepts, specs[0].max, tokens);
      SplitUnfolds(specs, vals, tokens);
      hide IsSplit, Munch, Greedy, NoneStarves, LimitsOf;
      MunchCovers(specs[0], vals[0], tokens);
      NoneStarvesLater(specs);
      var left := vals[1..];
      if k > |vals[0]| {
        left := CutAtTheFront(specs[1..], left, tokens[|vals[0]|..], k - |vals[0]|);
        assert tokens[|vals[0]|..][k - |vals[0]|..] == tokens[k..];
      }
      SplitIsFound(specs[1..], left, tokens[k..]);
      GreedyGoesOn(specs, tokens);
    }
  }

  function SumOfMinimums(limits: seq<Limits>): nat {
    if limits == [] then 0 else limits[0].min + SumOfMinimums(limits[1..])
  }

  function AcceptingAll(limits: seq<Limits>): (specs: seq<ArgSpec>)
    ensures |specs| == |limits| && LimitsOf(specs) == limits
  {
    seq(|limits|, i requires 0 <= i < |limits| => ArgSpec(limits[i].min, limits[i].max, _ => true))
  }

  lemma {:induction false} MunchAll(accepts: Token -> bool, max: nat, tokens: seq<Token>)
    requires forall t :: accepts(t)
    ensures Munch(accepts, max, tokens) == if max <= |tokens| then max else |tokens|
  {
    if max > 0 && tokens != [] {
      MunchAll(accepts, max - 1, tokens[1..]);
    }
  }

  lemma AcceptingUnfolds(limits: seq<Limits>, tokens: seq<Token>)
    requires limits != []
    ensures AcceptingAll(limits)[1..] == AcceptingAll(limits[1..])
    ensures var spec := AcceptingAll(limits)[0];
            && spec.min == limits[0].min && spec.max == limits[0].max
            && Munch(spec.accepts, spec.max, tokens) == if spec.max <= |tokens| then spec.max else |tokens|
  {
    MunchAll(AcceptingAll(limits)[0].accepts, limits[0].max, tokens);
  }

  /** Fewer tokens than the minimums ask for are never enough. */
  lemma {:induction false} TooFewTokens(limits: seq<Limits>, tokens: seq<Token>)
    requires |tokens| < SumOfMinimums(limits)
    ensures Greedy(AcceptingAll(limits), tokens) == None
    decreases |limits|
  {
    var specs := AcceptingAll(limits);
    var k := Munch(specs[0].accepts, specs[0].max, tokens);
    AcceptingUnfolds(limits, tokens);
    if k >= specs[0].min {
      TooFewTokens(limits[1..], tokens[k..]);
    }
  }

  lemma {:induction false} SomeMinimum(limits: seq<Limits>, j: nat)
    requires j < |limits| && limits[j].min > 0
    ensures SumOfMinimums(limits) > 0
  {
    if j > 0 {
      SomeMinimum(limits[1..], j - 1);
    }
  }

  /** As many tokens as the minimums ask for: greedy matching starves an argument that has to match. */
  lemma {:induction false} GreedyStarves(limits: seq<Limits>, tokens: seq<Token>, i: nat, j: nat)
    requires forall n :: 0 <= n < |limits| ==> limits[n].min <= limits[n].max
    requires i < j < |limits| && limits[i].min < limits[i].max && limits[j].min > 0
    requires |tokens| == SumOfMinimums(limits)
    ensures Greedy(AcceptingAll(limits), tokens) == None
    decreases |limits|
  {
    hide Munch, AcceptingAll;
    var specs := AcceptingAll(limits);
    var k := Munch(specs[0].accepts, specs[0].max, tokens);
    AcceptingUnfolds(limits, tokens);
    SomeMinimum(limits[1..], j - 1);
    if limits[0].min < limits[0].max {
      TooFewTokens(limits[1..], tokens[k..]);
    } else {
      GreedyStarves(limits[1..], tokens[k..], i - 1, j - 1);
    }
  }

  /** The same tokens can be split: each argument takes its minimum. */
  lemma {:induction false} MinimumsAreASplit(limits: seq<Limits>, tokens: seq<Token>) returns (vals: seq<seq<Token>>)
    requires forall n :: 0 <= n < |limits| ==> limits[n].min <= limits[n].max
    requires |tokens| == SumOfMinimums(limits)
    ensures IsSplit(AcceptingAll(limits), vals, tokens)
    decreases |limits|
  {
    if limits == [] {
      vals := [];
    } else {
      var more := MinimumsAreASplit(limits[1..], tokens[limits[0].min..]);
      vals := [tokens[..limits[0].min]] + more;
      AcceptingUnfolds(limits, tokens);
      assert vals[1..] == more;
      SplitUnfolds(AcceptingAll(limits), vals, tokens);
    }
  }

  /**
   * Exactly when greedy matching is complete: for arguments declared with these limits, whatever they accept, it finds
   * a split of any tokens that can be split, if and only if no argument that can match more than its minimum is
   * followed by one that has to match.
   */
  lemma GreedyIsCompleteExactlyWhen(limits: seq<Limits>)
    requires forall n :: 0 <= n < |limits| ==> limits[n].min <= limits[n].max
    ensures (forall specs, vals, tokens :: LimitsOf(specs) == limits && IsSplit(specs, vals, tokens) ==>
               Greedy(specs, tokens).Some?) <==> NoneStarves(limits)
  {
    if NoneStarves(limits) {
      forall specs, vals, tokens | LimitsOf(specs) == limits && IsSplit(specs, vals, tokens)
        ensures Greedy(specs, tokens).Some?
      {
        SplitIsFound(specs, vals, tokens);
      }
    } else {
      var i, j :| 0 <= i < j < |limits| && limits[i].min < limits[i].max && limits[j].min > 0;
      var tokens := seq(SumOfMinimums(limits), _ => "");
      var vals := MinimumsAreASplit(limits, tokens);
      GreedyStarves(limits, tokens, i, j);
    }
  }

  /** Otherwise it can miss a split: an optional argument takes the only token of a required one. */
  lemma GreedyCanMissASplit(t: Token)
    ensures var specs := [ArgSpec(0, 1, _ => true), ArgSpec(1, 1, _ => true)];
            Greedy(specs, [t]) == None && IsSplit(specs, [[], [t]], [t])
  {
    var any := (_: Token) => true;
    var specs := [ArgSpec(0, 1, any), ArgSpec(1, 1, any)];
    assert [[], [t]][1..] == [[t]] && [[t]][1..] == [];
    assert Flatten([[t]]) == [t];
    assert Munch(any, 1, [t]) == 1;
    assert specs[1..] == [ArgSpec(1, 1, any)];
  }

  // ----------------------------------------------------------------------------------------------- the classes

  class CliArgument {
    const matchMin: nat
    const matchMax: nat
    const accepts: Token -> bool
    var values: seq<Token>
    var isValid: bool

    constructor (matchMin: nat, matchMax: nat, accepts: Token -> bool)
      ensures this.matchMin == matchMin && this.matchMax == matchMax && this.accepts == accepts
      ensures values == [] && !isValid
    {
      this.matchMin, this.matchMax, this.accepts := matchMin, matchMax, accepts;
      values, isValid := [], false;
    }

    function Spec(): ArgSpec {
      ArgSpec(matchMin, matchMax, accepts)
    }

    method Clear()
      modifies this
      ensures values == [] && !isValid
    {
      values, isValid := [], false;
    }

    method SetValue(value: Token) returns (ok: bool)
      modifies this
      ensures ok == (|old(values)| < matchMax && accepts(value))
      ensures values == old(values) + (if ok then [value] else [])
      ensures isValid == (old(isValid) || ok)
    {
      if |values| < matchMax && accepts(value) {
        values := values + [value];
        isValid := true;
        return true;
      }
      ok := false;
    }

    function GetAllValueCount(): nat
      reads this
    {
      |values|
    }
  }

  /** A `size_t` limit stored in an `int`. */
  function ToInt(limit: nat): int {
    var low := limit % TWO_32;
    if low > INT_MAX then low - TWO_32 else low
  }

  ghost function Specs(args: seq<CliArgument>): seq<ArgSpec> {
    seq(|args|, i requires 0 <= i < |args| => args[i].Spec())
  }

  ghost function Values(args: seq<CliArgument>): seq<seq<Token>>
    reads args
  {
    seq(|args|, i requires 0 <= i < |args| reads args => args[i].values)
  }

  class CliCommandFormat {
    const args: seq<CliArgument>
    const action: Option<(nat, seq<seq<Token>>) -> bool>

    constructor (args: seq<CliArgument>, action: Option<(nat, seq<seq<Token>>) -> bool>)
      ensures this.args == args && this.action == action
    {
      this.args, this.action := args, action;
    }

    /** The arguments are different objects, and their limits are in order and survive being stored in an `int`. */
    ghost predicate Valid() {
      && (forall i, j :: 0 <= i < j < |args| ==> args[i] != args[j])
      && (forall i :: 0 <= i < |args| ==>
            args[i].matchMin <= args[i].matchMax && args[i].matchMin <= INT_MAX &&
            (args[i].matchMax <= INT_MAX || args[i].matchMax == UINT_MAX))
    }

    method ClearArgs()
      modifies args
      ensures forall i :: 0 <= i < |args| ==> args[i].values == []
    {
      for i := 0 to |args|
        invariant forall k :: 0 <= k < i ==> args[k].values == []
      {
        args[i].Clear();
      }
    }

    /** What has been matched so far leads to what greedy matching of all the tokens finds. */
    ghost predicate OnTrack(tokens: seq<Token>, rest: seq<Token>, mI: nat, argsOk: bool)
      requires mI <= |args|
      reads args
    {
      && (forall i :: mI < i < |args| ==> args[i].values == [])
      && Greedy(Specs(args), tokens) ==
           if argsOk then Onward(Specs(args), Values(args)[..mI], Current(mI), rest) else None
    }

    /** Moving on from an argument that has matched enough and can match no more. */
    lemma MoveOnTrack(tokens: seq<Token>, rest: seq<Token>, mI: nat)
      requires mI < |args| && OnTrack(tokens, rest, mI, true)
      requires args[mI].matchMin <= |args[mI].values| <= args[mI].matchMax
      requires |args[mI].values| == args[mI].matchMax || rest == [] || !args[mI].accepts(rest[0])
      ensures OnTrack(tokens, rest, mI + 1, true)
    {
      MoveOn(Specs(args), Values(args)[..mI], args[mI].values, rest);
      hide Onward, Greedy;
      assert Values(args)[..mI + 1] == Values(args)[..mI] + [args[mI].values];
    }

    /** Offers the next token to the argument at `mI`. */
    method OfferToken(ghost tokens: seq<Token>, rest: seq<Token>, mI: nat) returns (ok: bool)
      requires Valid() && rest != [] && mI < |args| && OnTrack(tokens, rest, mI, true)
      modifies args[mI]
      ensures ok == (|old(args[mI].values)| < args[mI].matchMax && args[mI].accepts(rest[0]))
      ensures |args[mI].values| == |old(args[mI].values)| + if ok then 1 else 0
      ensures OnTrack(tokens, if ok then rest[1..] else rest, mI, true)
    {
      ghost var was := Values(args);
      ok := args[mI].SetValue(rest[0]);
      if ok {
        TakeOne(Specs(args), was[..mI], was[mI], rest);
      }
      hide Onward, Greedy;
      assert forall i :: 0 <= i < |args| && i != mI ==> args[i].values == was[i];
      assert Values(args)[..mI] == was[..mI];
      assert args[mI].values == if ok then was[mI] + [rest[0]] else was[mI];
    }

    /** One turn of the first loop of `run_command`. */
    method MatchOne(ghost tokens: seq<Token>, rest: seq<Token>, mI: nat, matchCount: nat)
      returns (rest': seq<Token>, mI': nat, matchCount': nat, argsOk: bool)
      requires Valid() && rest != [] && mI < |args| && |args[mI].values| + |rest| <= INT_MAX
      requires matchCount == |args[mI].values| <= args[mI].matchMax
      requires OnTrack(tokens, rest, mI, true)
      modifies args
      ensures mI' <= |args| && OnTrack(tokens, rest', mI', argsOk)
      ensures mI' < |args| && argsOk ==> matchCount' == |args[mI'].values| <= args[mI'].matchMax
      ensures mI' < |args| && argsOk ==> |args[mI'].values| + |rest'| <= |old(args[mI].values)| + |rest|
      ensures rest' == rest || rest' == rest[1..]
      ensures argsOk && rest' == rest ==> mI' == mI + 1
      ensures !argsOk ==> rest' == rest && mI' == mI
    {
      hide Onward, Greedy;
      rest', mI', matchCount', argsOk := rest, mI, matchCount, true;
      var ok := OfferToken(tokens, rest, mI);
      var matchMax := ToInt(args[mI].matchMax);
      var matchMin := ToInt(args[mI].matchMin);
      if ok {
        rest' := rest[1..];
        matchCount' := matchCount + 1;
        if matchMax != ToInt(UINT_MAX) && matchCount' >= matchMax {
          MoveOnTrack(tokens, rest', mI);
          mI' := mI + 1;
          matchCount' := 0;
        }
      } else if matchCount >= matchMin {
        MoveOnTrack(tokens, rest, mI);
        mI' := mI + 1;
        matchCount' := 0;
      } else {
        StuckFails(Specs(args), Values(args)[..mI], args[mI].values, rest);
        argsOk := false;
      }
    }

    /** The second loop of `run_command`: the arguments that are left must be satisfied with what they have. */
    method CheckLeftOver(ghost tokens: seq<Token>, from: nat) returns (argsOk: bool)
      requires Valid() && from <= |args| && OnTrack(tokens, [], from, true)
      requires from < |args| ==> |args[from].values| <= args[from].matchMax
      ensures Greedy(Specs(args), tokens) == if argsOk then Some(Values(args)) else None
    {
      hide Greedy, Onward;
      var mI := from;
      argsOk := true;
      while mI < |args| && argsOk
        invariant mI <= |args|
        invariant argsOk ==> OnTrack(tokens, [], mI, true)
        invariant !argsOk ==> Greedy(Specs(args), tokens) == None
        invariant argsOk && mI < |args| ==> |args[mI].values| <= args[mI].matchMax
      {
        if args[mI].matchMin > args[mI].GetAllValueCount() {
          StuckFails(Specs(args), Values(args)[..mI], args[mI].values, []);
          argsOk := false;
        } else {
          MoveOnTrack(tokens, [], mI);
        }
        mI := mI + 1;
      }
      if argsOk {
        assert Values(args)[..mI] == Values(args);
        Finishes(Specs(args), Values(args));
      }
    }

    /**
     * Runs the action exactly when greedy matching succeeds and an action is set; the arguments then hold the split
     * that was found, and all tokens were matched.
     */
    method RunCommand(tokens: seq<Token>, doneBefore: bool) returns (ran: bool, done: bool)
      requires Valid() && |tokens| <= INT_MAX
      modifies args
      ensures ran == (Greedy(Specs(args), tokens).Some? && action.Some?)
      ensures Greedy(Specs(args), tokens).Some? ==> Greedy(Specs(args), tokens) == Some(Values(args))
      ensures done == if ran then action.value(|tokens|, Values(args)) else doneBefore
    {
      hide Greedy, Onward;
      done := doneBefore;
      ClearArgs();
      var argsOk := true;
      var mI: nat, matchCount: nat, totalMatched: nat := 0, 0, 0;
      var rest := tokens;
      Starts(Specs(args), tokens);
      assert Values(args)[..0] == [];
      while rest != [] && mI < |args| && argsOk
        invariant mI <= |args| && OnTrack(tokens, rest, mI, argsOk)
        invariant argsOk ==> totalMatched + |rest| == |tokens|
        invariant argsOk && mI < |args| ==> matchCount == |args[mI].values| <= args[mI].matchMax
        invariant argsOk && mI < |args| ==> |args[mI].values| + |rest| <= |tokens|
        decreases |rest|, |args| - mI, argsOk
      {
        var rest', mI', matchCount', ok := MatchOne(tokens, rest, mI, matchCount);
        totalMatched := totalMatched + |rest| - |rest'|;
        rest, mI, matchCount, argsOk := rest', mI', matchCount', ok;
      }
      if argsOk && rest != [] {
        NothingTakesTheRest(Specs(args), Values(args)[..mI], rest);
        argsOk := false;
      } else if argsOk {
        argsOk := CheckLeftOver(tokens, mI);
      }
      if argsOk && action.Some? {
        done := action.value(totalMatched, AllValues());
        return true, done;
      }
      ran := false;
    }

    /** What the argument at `mI` has taken so far, if there is such an argument. */
    ghost function Current(mI: nat): seq<Token>
      requires mI <= |args|
      reads args
    {
      if mI < |args| then args[mI].values else []
    }

    /** The values that the action reads from the arguments. */
    function AllValues(): (vals: seq<seq<Token>>)
      reads args
      ensures vals == Values(args)
    {
      seq(|args|, i requires 0 <= i < |args| reads args => args[i].values)
    }
  }

  // ------------------------------------------------------------------------------------ one turn of the loop

  /** What matching finds once the first arguments are done and the next one has taken some tokens. */
  function Onward(specs: seq<ArgSpec>, done: seq<seq<Token>>, taken: seq<Token>,
          rest: seq<Token>): Option<seq<seq<Token>>>
    requires |done| <= |specs|
  {
    Append(done, if |done| == |specs| then Greedy([], rest) else Resume(specs[|done|..], taken, rest))
  }

  lemma Starts(specs: seq<ArgSpec>, tokens: seq<Token>)
    ensures Greedy(specs, tokens) == Onward(specs, [], [], tokens)
  {
    assert specs[0..] == specs;
    if Greedy(specs, tokens).Some? {
      assert [] + Greedy(specs, tokens).value == Greedy(specs, tokens).value;
    }
  }

  lemma Finishes(specs: seq<ArgSpec>, done: seq<seq<Token>>)
    requires |done| == |specs|
    ensures Onward(specs, done, [], []) == Some(done)
  {
    assert done + [] == done;
  }

  lemma TakeOne(specs: seq<ArgSpec>, done: seq<seq<Token>>, taken: seq<Token>, rest: seq<Token>)
    requires |done| < |specs| && rest != []
    requires |taken| < specs[|done|].max && specs[|done|].accepts(rest[0])
    ensures Onward(specs, done, taken, rest) == Onward(specs, done, taken + [rest[0]], rest[1..])
  {
    var spec := specs[|done|];
    var k := Munch(spec.accepts, spec.max - |taken|, rest);
    assert taken + rest[..k] == taken + [rest[0]] + rest[1..][..k - 1];
    assert rest[k..] == rest[1..][k - 1..];
  }

  lemma StuckFails(specs: seq<ArgSpec>, done: seq<seq<Token>>, taken: seq<Token>, rest: seq<Token>)
    requires |done| < |specs| && |taken| < specs[|done|].min
    requires |taken| >= specs[|done|].max || rest == [] || !specs[|done|].accepts(rest[0])
    ensures Onward(specs, done, taken, rest) == None
  {
  }

  lemma NothingTakesTheRest(specs: seq<ArgSpec>, done: seq<seq<Token>>, rest: seq<Token>)
    requires |done| == |specs| && rest != []
    ensures Onward(specs, done, [], rest) == None
  {
  }

  lemma MoveOn(specs: seq<ArgSpec>, done: seq<seq<Token>>, taken: seq<Token>, rest: seq<Token>)
    requires |done| < |specs|
    requires specs[|done|].min <= |taken| <= specs[|done|].max
    requires |taken| == specs[|done|].max || rest == [] || !specs[|done|].accepts(rest[0])
    ensures Onward(specs, done, taken, rest) == Onward(specs, done + [taken], [], rest)
  {
    assert specs[|done|..][1..] == specs[|done| + 1..];
    assert taken + rest[..0] == taken && rest[0..] == rest;
    var more := Greedy(specs[|done| + 1..], rest);
    if more.Some? {
      assert done + ([taken] + more.value) == done + [taken] + more.value;
    }
  }

  function Append(done: seq<seq<Token>>, more: Option<seq<seq<Token>>>): Option<seq<seq<Token>>> {
    match more
    case None => None
    case Some(vals) => Some(done + vals)
  }
}
