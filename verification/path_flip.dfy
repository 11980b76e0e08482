/** `FlipSvgPath` (json2bas/json2bas.go): mirrors an SVG path upside down
    inside a view box of height `H`. The parameters that follow a command
    letter are cut into groups of that command's arity; in each group the
    y coordinates of an absolute (upper-case) command become `H - y`, those of
    a relative (lower-case) command become `-y`, and everything else is kept.
    The result is the command letters and groups joined by single spaces. */
module PathFlip {
  import opened Wrappers
  import opened Text
  import opened PathLexer

  const DefaultViewBoxW: int := 4000
  const DefaultViewBoxH: int := 3620

  /** What can go wrong in the source: a parameter run under a command of
      arity 0 (before any command, or after Z) never leaves the grouping
      loop, whose step is 0; an arc run whose length is not a multiple of 7
      indexes past the end of its last group and panics. */
  datatype FlipError = NeverEnds | IndexPanic

  /** One entry of the output list: a command letter or a processed group. */
  datatype Item = Letter(c: char) | Group(values: seq<real>)

  function Upper(c: char): char
  {
    if 'a' <= c <= 'z' then (c as int - 32) as char else c
  }

  /** An upper-case command takes absolute coordinates (`isAbs`). */
  predicate IsAbsolute(c: char)
  {
    Upper(c) == c
  }

  predicate IsArc(c: char)
  {
    Upper(c) == 'A'
  }

  /** `getGroupSize`: the number of parameters one instance of the command
      takes; 0 for Z, for any other letter and for no command yet. */
  function GroupSize(cmd: Option<char>): nat
  {
    match cmd
    case None => 0
    case Some(c) =>
      var u := Upper(c);
      if u == 'H' || u == 'V' then 1
      else if u == 'M' || u == 'L' || u == 'T' then 2
      else if u == 'S' || u == 'Q' then 4
      else if u == 'C' then 6
      else if u == 'A' then 7
      else 0
  }

  /** `processGroup` for command `c` on a group of at most its arity. */
  function ProcessGroup(c: char, g: seq<real>, h: int): Result<seq<real>, FlipError>
  {
    if |g| == 0 then Success(g)
    else if c == 'V' then Success([h as real - g[0]])
    else if c == 'v' then Success([-g[0]])
    else if c == 'A' || c == 'a' then
      if |g| < 7 then Failure(IndexPanic)
      else Success(g[..6] + [if c == 'A' then h as real - g[6] else -g[6]])
    else
      Success(seq(|g|, i requires 0 <= i < |g| =>
        if i % 2 == 1 then (if IsAbsolute(c) then h as real - g[i] else -g[i]) else g[i]))
  }

  function Min(a: nat, b: nat): nat
  {
    if a < b then a else b
  }

  /** The grouping loop `for i := 0; i < len(params); i += groupSize`, for a
      positive group size. */
  function Groups(c: char, ps: seq<real>, size: nat, h: int): Result<seq<Item>, FlipError>
    requires size > 0
    decreases |ps|
  {
    if |ps| == 0 then Success([])
    else
      var n := Min(size, |ps|);
      Prepend(ProcessGroup(c, ps[..n], h), Groups(c, ps[n..], size, h))
  }

  /** A processed group followed by the rest of the output; the first
      failure wins. */
  function Prepend(first: Result<seq<real>, FlipError>, rest: Result<seq<Item>, FlipError>): Result<seq<Item>, FlipError>
  {
    match first
    case Failure(e) => Failure(e)
    case Success(g) =>
      match rest
      case Failure(e) => Failure(e)
      case Success(items) => Success([Group(g)] + items)
  }

  /** Emptying the pending parameters under the current command. */
  function Flush(cmd: Option<char>, ps: seq<real>, h: int): Result<seq<Item>, FlipError>
  {
    if |ps| == 0 then Success([])
    else if GroupSize(cmd) == 0 then Failure(NeverEnds)
    else Groups(cmd.value, ps, GroupSize(cmd), h)
  }

  /** The token loop: parameters accumulate until the next command letter,
      which flushes them and becomes the current command; the last run is
      flushed at the end. */
  function Scan(ts: seq<Token>, cmd: Option<char>, ps: seq<real>, h: int): Result<seq<Item>, FlipError>
    decreases |ts|
  {
    if |ts| == 0 then Flush(cmd, ps, h)
    else
      match ts[0]
      case Number(v) => Scan(ts[1..], cmd, ps + [v], h)
      case Command(c) => Emit(Flush(cmd, ps, h), c, Scan(ts[1..], Some(c), [], h))
  }

  /** The output before a command letter, the letter, and the output after
      it; the first failure wins. */
  function Emit(before: Result<seq<Item>, FlipError>, c: char, after: Result<seq<Item>, FlipError>): Result<seq<Item>, FlipError>
  {
    match before
    case Failure(e) => Failure(e)
    case Success(out) =>
      match after
      case Failure(e) => Failure(e)
      case Success(rest) => Success(out + [Letter(c)] + rest)
  }

  /** The view-box height actually used: 0 stands for the default. */
  function Height(viewBoxH: int): (h: int)
    ensures viewBoxH != 0 ==> h == viewBoxH
    ensures h != 0
  {
    if viewBoxH == 0 then DefaultViewBoxH else viewBoxH
  }

  function RenderItem(it: Item, fmt: real -> string): string
  {
    match it
    case Letter(c) => [c]
    case Group(vs) => Join(seq(|vs|, i requires 0 <= i < |vs| => fmt(vs[i])), " ")
  }

  // ---------------------------------------------------------------------
  // The reference: what happens to each token on its own.
  // ---------------------------------------------------------------------

  /** Parameter `k` of a run under `c` is a y coordinate: every parameter of
      V, the seventh of each arc, the odd-numbered ones of M, L, T, S, Q and
      C; none of H. */
  predicate IsYSlot(c: char, k: nat)
  {
    var u := Upper(c);
    u == 'V'
    || (u == 'A' && k % 7 == 6)
    || ((u == 'M' || u == 'L' || u == 'T' || u == 'S' || u == 'Q' || u == 'C') && k % 2 == 1)
  }

  /** The mirrored value of parameter `k` of a run under `cmd`. */
  function FlipValue(cmd: Option<char>, k: nat, v: real, h: int): real
  {
    if cmd.Some? && IsYSlot(cmd.value, k) then
      if IsAbsolute(cmd.value) then h as real - v else -v
    else v
  }

  function FlipRun(cmd: Option<char>, ps: seq<real>, h: int): (r: seq<real>)
    ensures |r| == |ps|
  {
    seq(|ps|, k requires 0 <= k < |ps| => FlipValue(cmd, k, ps[k], h))
  }

  /** Every token mirrored on its own: a command is kept and starts a new
      run; the `k`-th parameter of a run is mirrored by `FlipValue`. */
  function Reflect(ts: seq<Token>, cmd: Option<char>, k: nat, h: int): (r: seq<Token>)
    ensures |r| == |ts|
    decreases |ts|
  {
    if |ts| == 0 then []
    else
      match ts[0]
      case Command(c) => [Command(c)] + Reflect(ts[1..], Some(c), 0, h)
      case Number(v) => [Number(FlipValue(cmd, k, v, h))] + Reflect(ts[1..], cmd, k + 1, h)
  }

  /** A run of `n` parameters under `cmd` can be flushed. */
  predicate RunOk(cmd: Option<char>, n: nat)
  {
    n == 0 || (GroupSize(cmd) > 0 && (IsArc(cmd.value) ==> n % 7 == 0))
  }

  /** Every parameter run of `ts` (the first one with `n` parameters already
      pending under `cmd`) can be flushed. */
  predicate Flippable(ts: seq<Token>, cmd: Option<char>, n: nat)
    decreases |ts|
  {
    if |ts| == 0 then RunOk(cmd, n)
    else
      match ts[0]
      case Number(_) => Flippable(ts[1..], cmd, n + 1)
      case Command(c) => RunOk(cmd, n) && Flippable(ts[1..], Some(c), 0)
  }

  function Numbers(vs: seq<real>): (ts: seq<Token>)
    ensures |ts| == |vs|
    ensures forall i | 0 <= i < |vs| :: ts[i] == Number(vs[i])
  {
    seq(|vs|, i requires 0 <= i < |vs| => Number(vs[i]))
  }

  /** The tokens an output list stands for. */
  function Flatten(items: seq<Item>): seq<Token>
  {
    if |items| == 0 then [] else ItemTokens(items[0]) + Flatten(items[1..])
  }

  /** The tokens one output item stands for. */
  function ItemTokens(it: Item): seq<Token>
  {
    match it
    case Letter(c) => [Command(c)]
    case Group(vs) => Numbers(vs)
  }

  predicate GroupsNonEmpty(items: seq<Item>)
  {
    forall i | 0 <= i < |items| :: items[i].Group? ==> |items[i].values| > 0
  }

  // ---------------------------------------------------------------------
  // The grouping loop against the reference.
  // ---------------------------------------------------------------------

  lemma {:induction false} FlattenAppend(a: seq<Item>, b: seq<Item>)
    ensures Flatten(a + b) == Flatten(a) + Flatten(b)
    decreases |a|
  {
    if |a| == 0 {
      assert a + b == b;
    } else {
      var ab := a + b;
      assert ab[0] == a[0];
      assert ab[1..] == a[1..] + b;
      assert Flatten(ab) == ItemTokens(a[0]) + Flatten(a[1..] + b);
      FlattenAppend(a[1..], b);
      assert Flatten(a) == ItemTokens(a[0]) + Flatten(a[1..]);
      Associate(ItemTokens(a[0]), Flatten(a[1..]), Flatten(b));
    }
  }

  /** Mirroring is periodic in the group size, so every group can be mirrored
      as if it were the first. */
  lemma FlipValuePeriodic(c: char, k: nat, v: real, h: int)
    requires GroupSize(Some(c)) > 0
    ensures FlipValue(Some(c), k + GroupSize(Some(c)), v, h) == FlipValue(Some(c), k, v, h)
  {
    var size := GroupSize(Some(c));
    if Upper(c) == 'A' {
      assert (k + 7) % 7 == k % 7;
    } else if size % 2 == 0 {
      assert (k + size) % 2 == k % 2;
    }
  }

  /** `processGroup` on a group no longer than the arity mirrors it as
      `FlipValue` does, except that an arc group shorter than 7 panics. */
  lemma ProcessGroupFlips(c: char, g: seq<real>, h: int)
    requires 0 < |g| <= GroupSize(Some(c))
    ensures ProcessGroup(c, g, h).Success? <==> (IsArc(c) ==> |g| == 7)
    ensures ProcessGroup(c, g, h).Success? ==> ProcessGroup(c, g, h).value == FlipRun(Some(c), g, h)
  {
    if ProcessGroup(c, g, h).Success? {
      var r := ProcessGroup(c, g, h).value;
      forall k | 0 <= k < |g|
        ensures r[k] == FlipValue(Some(c), k, g[k], h)
      {
      }
    }
  }

  lemma FlipRunSplit(c: char, ps: seq<real>, n: nat, h: int)
    requires GroupSize(Some(c)) > 0 && n <= |ps|
    requires n == GroupSize(Some(c)) || n == |ps|
    ensures FlipRun(Some(c), ps, h) == FlipRun(Some(c), ps[..n], h) + FlipRun(Some(c), ps[n..], h)
  {
    forall k | 0 <= k < |ps| - n
      ensures FlipRun(Some(c), ps[n..], h)[k] == FlipValue(Some(c), k + n, ps[k + n], h)
    {
      FlipValuePeriodic(c, k, ps[k + n], h);
    }
  }

  /** The grouping loop succeeds unless an arc run is not a multiple of 7,
      and its groups, read in order, are the mirrored run. */
  lemma {:induction false} GroupsFlip(c: char, ps: seq<real>, h: int)
    requires GroupSize(Some(c)) > 0
    ensures Groups(c, ps, GroupSize(Some(c)), h).Success? <==> (IsArc(c) ==> |ps| % 7 == 0)
    ensures Groups(c, ps, GroupSize(Some(c)), h).Success? ==>
      && Flatten(Groups(c, ps, GroupSize(Some(c)), h).value) == Numbers(FlipRun(Some(c), ps, h))
      && GroupsNonEmpty(Groups(c, ps, GroupSize(Some(c)), h).value)
    decreases |ps|
  {
    var size := GroupSize(Some(c));
    if |ps| > 0 {
      var n := Min(size, |ps|);
      ProcessGroupFlips(c, ps[..n], h);
      GroupsFlip(c, ps[n..], h);
      FlipRunSplit(c, ps, n, h);
      PrependFlips(ProcessGroup(c, ps[..n], h), Groups(c, ps[n..], size, h),
                   FlipRun(Some(c), ps[..n], h), FlipRun(Some(c), ps[n..], h),
                   IsArc(c) ==> n == 7, IsArc(c) ==> |ps[n..]| % 7 == 0);
      if IsArc(c) {
        ArcRun(|ps|, n);
      }
    }
  }

  /** An arc run splits into a first group of 7 and a rest that is a
      multiple of 7 exactly when it is a multiple of 7. */
  lemma ArcRun(m: nat, n: nat)
    requires 0 < m && n == Min(7, m)
    ensures (n == 7 && (m - n) % 7 == 0) <==> m % 7 == 0
  {
  }

  /** A group in front of an output that stands for its tokens. */
  lemma PrependFlips(first: Result<seq<real>, FlipError>, rest: Result<seq<Item>, FlipError>,
                     run: seq<real>, runs: seq<real>, okFirst: bool, okRest: bool)
    requires first.Success? <==> okFirst
    requires first.Success? ==> first.value == run && |run| > 0
    requires rest.Success? <==> okRest
    requires rest.Success? ==> Flatten(rest.value) == Numbers(runs) && GroupsNonEmpty(rest.value)
    ensures Prepend(first, rest).Success? <==> okFirst && okRest
    ensures Prepend(first, rest).Success? ==>
      && Flatten(Prepend(first, rest).value) == Numbers(run + runs)
      && GroupsNonEmpty(Prepend(first, rest).value)
  {
    if first.Success? && rest.Success? {
      var items := [Group(run)] + rest.value;
      assert items[0] == Group(run) && items[1..] == rest.value;
      assert Flatten(items) == Numbers(run) + Numbers(runs);
      assert Numbers(run + runs) == Numbers(run) + Numbers(runs);
      forall i | 0 <= i < |items| && items[i].Group?
        ensures |items[i].values| > 0
      {
        if i > 0 {
          assert items[i] == rest.value[i - 1];
        }
      }
    }
  }

  lemma FlushFlips(cmd: Option<char>, ps: seq<real>, h: int)
    ensures Flush(cmd, ps, h).Success? <==> RunOk(cmd, |ps|)
    ensures Flush(cmd, ps, h).Success? ==>
      && Flatten(Flush(cmd, ps, h).value) == Numbers(FlipRun(cmd, ps, h))
      && GroupsNonEmpty(Flush(cmd, ps, h).value)
  {
    if |ps| > 0 && GroupSize(cmd) > 0 {
      GroupsFlip(cmd.value, ps, h);
    }
  }

  lemma FlipRunAppend(cmd: Option<char>, ps: seq<real>, v: real, h: int)
    ensures Numbers(FlipRun(cmd, ps + [v], h)) == Numbers(FlipRun(cmd, ps, h)) + [Number(FlipValue(cmd, |ps|, v, h))]
  {
  }

  /** A command letter between two outputs that each stand for their
      tokens: the whole stands for the tokens around the command. */
  lemma EmitFlips(before: Result<seq<Item>, FlipError>, c: char, after: Result<seq<Item>, FlipError>,
                  tsBefore: seq<Token>, tsAfter: seq<Token>, okBefore: bool, okAfter: bool)
    requires before.Success? <==> okBefore
    requires before.Success? ==> Flatten(before.value) == tsBefore && GroupsNonEmpty(before.value)
    requires after.Success? <==> okAfter
    requires after.Success? ==> Flatten(after.value) == tsAfter && GroupsNonEmpty(after.value)
    ensures Emit(before, c, after).Success? <==> okBefore && okAfter
    ensures Emit(before, c, after).Success? ==>
      && Flatten(Emit(before, c, after).value) == tsBefore + ([Command(c)] + tsAfter)
      && GroupsNonEmpty(Emit(before, c, after).value)
  {
    if before.Success? && after.Success? {
      var out, rest := before.value, after.value;
      assert Emit(before, c, after) == Success(out + [Letter(c)] + rest);
      AroundLetter(out, c, rest);
    }
  }

  /** An output list with a letter between two parts stands for the tokens of
      the parts around that command. */
  lemma AroundLetter(a: seq<Item>, c: char, b: seq<Item>)
    ensures Flatten(a + [Letter(c)] + b) == Flatten(a) + ([Command(c)] + Flatten(b))
    ensures GroupsNonEmpty(a) && GroupsNonEmpty(b) ==> GroupsNonEmpty(a + [Letter(c)] + b)
  {
    FlattenAppend(a + [Letter(c)], b);
    FlattenAppend(a, [Letter(c)]);
    assert Flatten([Letter(c)]) == [Command(c)];
    Associate(Flatten(a), [Command(c)], Flatten(b));
    if GroupsNonEmpty(a) && GroupsNonEmpty(b) {
      GroupsNonEmptyAppend(a, [Letter(c)]);
      GroupsNonEmptyAppend(a + [Letter(c)], b);
    }
  }

  lemma GroupsNonEmptyAppend(a: seq<Item>, b: seq<Item>)
    requires GroupsNonEmpty(a) && GroupsNonEmpty(b)
    ensures GroupsNonEmpty(a + b)
  {
    forall i | 0 <= i < |a + b| && (a + b)[i].Group?
      ensures |(a + b)[i].values| > 0
    {
      if i < |a| {
        assert (a + b)[i] == a[i];
      } else {
        assert (a + b)[i] == b[i - |a|];
      }
    }
  }

  /** What `ScanFlips` states about one call of the token loop. */
  ghost predicate ScanSpec(ts: seq<Token>, cmd: Option<char>, ps: seq<real>, h: int)
  {
    && (Scan(ts, cmd, ps, h).Success? <==> Flippable(ts, cmd, |ps|))
    && (Scan(ts, cmd, ps, h).Success? ==>
          && Flatten(Scan(ts, cmd, ps, h).value) == Numbers(FlipRun(cmd, ps, h)) + Reflect(ts, cmd, |ps|, h)
          && GroupsNonEmpty(Scan(ts, cmd, ps, h).value))
  }

  /** The token loop succeeds exactly on flippable token lists, and the
      tokens of its output are the pending run mirrored followed by every
      token mirrored on its own. */
  lemma {:induction false} ScanFlips(ts: seq<Token>, cmd: Option<char>, ps: seq<real>, h: int)
    ensures Scan(ts, cmd, ps, h).Success? <==> Flippable(ts, cmd, |ps|)
    ensures Scan(ts, cmd, ps, h).Success? ==>
      && Flatten(Scan(ts, cmd, ps, h).value) == Numbers(FlipRun(cmd, ps, h)) + Reflect(ts, cmd, |ps|, h)
      && GroupsNonEmpty(Scan(ts, cmd, ps, h).value)
    decreases |ts|
  {
    if |ts| == 0 {
      FlushFlips(cmd, ps, h);
    } else if ts[0].Number? {
      ScanFlips(ts[1..], cmd, ps + [ts[0].v], h);
      NumberCase(ts, cmd, ps, h);
    } else {
      ScanFlips(ts[1..], Some(ts[0].c), [], h);
      CommandCase(ts, cmd, ps, h);
    }
  }

  /** A parameter joins the pending run. */
  lemma NumberCase(ts: seq<Token>, cmd: Option<char>, ps: seq<real>, h: int)
    requires |ts| > 0 && ts[0].Number?
    ensures ScanSpec(ts[1..], cmd, ps + [ts[0].v], h) ==> ScanSpec(ts, cmd, ps, h)
  {
    var v, rest := ts[0].v, ts[1..];
    var more := ps + [v];
    var x := Number(FlipValue(cmd, |ps|, v, h));
    assert |more| == |ps| + 1;
    assert Scan(ts, cmd, ps, h) == Scan(rest, cmd, more, h);
    assert Flippable(ts, cmd, |ps|) == Flippable(rest, cmd, |more|);
    assert Reflect(ts, cmd, |ps|, h) == [x] + Reflect(rest, cmd, |more|, h);
    FlipRunAppend(cmd, ps, v, h);
    Associate(Numbers(FlipRun(cmd, ps, h)), [x], Reflect(rest, cmd, |more|, h));
  }

  /** A command letter flushes the pending run and starts a new one. */
  lemma CommandCase(ts: seq<Token>, cmd: Option<char>, ps: seq<real>, h: int)
    requires |ts| > 0 && ts[0].Command?
    ensures ScanSpec(ts[1..], Some(ts[0].c), [], h) ==> ScanSpec(ts, cmd, ps, h)
  {
    var c := ts[0].c;
    FlushFlips(cmd, ps, h);
    if ScanSpec(ts[1..], Some(c), [], h) {
      EmitFlips(Flush(cmd, ps, h), c, Scan(ts[1..], Some(c), [], h),
                Numbers(FlipRun(cmd, ps, h)), Reflect(ts[1..], Some(c), 0, h),
                RunOk(cmd, |ps|), Flippable(ts[1..], Some(c), 0));
    }
  }

  /** Mirroring twice gives the tokens back. */
  lemma {:induction false} ReflectTwice(ts: seq<Token>, cmd: Option<char>, k: nat, h: int)
    ensures Reflect(Reflect(ts, cmd, k, h), cmd, k, h) == ts
    decreases |ts|
  {
    if |ts| > 0 {
      var r := Reflect(ts, cmd, k, h);
      match ts[0]
      case Command(c) =>
        ReflectTwice(ts[1..], Some(c), 0, h);
        assert r[1..] == Reflect(ts[1..], Some(c), 0, h);
      case Number(v) =>
        ReflectTwice(ts[1..], cmd, k + 1, h);
        assert r[1..] == Reflect(ts[1..], cmd, k + 1, h);
        FlipValueTwice(cmd, k, v, h);
        assert r[0] == Number(FlipValue(cmd, k, v, h));
      assert ts == [ts[0]] + ts[1..];
    }
  }

  /** Mirroring one parameter twice gives it back. */
  lemma FlipValueTwice(cmd: Option<char>, k: nat, v: real, h: int)
    ensures FlipValue(cmd, k, FlipValue(cmd, k, v, h), h) == v
  {
  }

  /** Mirroring keeps every run where it was, so it keeps a token list
      flippable or not. */
  lemma {:induction false} ReflectFlippable(ts: seq<Token>, cmd: Option<char>, k: nat, h: int)
    ensures Flippable(Reflect(ts, cmd, k, h), cmd, k) <==> Flippable(ts, cmd, k)
    decreases |ts|
  {
    if |ts| > 0 {
      var r := Reflect(ts, cmd, k, h);
      match ts[0]
      case Command(c) =>
        ReflectFlippable(ts[1..], Some(c), 0, h);
        assert r[1..] == Reflect(ts[1..], Some(c), 0, h);
      case Number(v) =>
        ReflectFlippable(ts[1..], cmd, k + 1, h);
        assert r[1..] == Reflect(ts[1..], cmd, k + 1, h);
    }
  }

  // ---------------------------------------------------------------------
  // The whole function.
  // ---------------------------------------------------------------------

  /** The printed form of a token under the float formatter. */
  function TokenText(t: Token, fmt: real -> string): string
  {
    match t
    case Command(c) => [c]
    case Number(v) => fmt(v)
  }

  function TokenTexts(ts: seq<Token>, fmt: real -> string): (r: seq<string>)
    ensures |r| == |ts|
  {
    seq(|ts|, i requires 0 <= i < |ts| => TokenText(ts[i], fmt))
  }

  lemma RenderItemTokens(it: Item, fmt: real -> string)
    ensures RenderItem(it, fmt) == Join(TokenTexts(ItemTokens(it), fmt), " ")
  {
    match it
    case Letter(c) =>
    case Group(vs) =>
      assert TokenTexts(ItemTokens(it), fmt) == seq(|vs|, i requires 0 <= i < |vs| => fmt(vs[i]));
  }

  lemma TokenTextsAppend(a: seq<Token>, b: seq<Token>, fmt: real -> string)
    ensures TokenTexts(a + b, fmt) == TokenTexts(a, fmt) + TokenTexts(b, fmt)
  {
  }

  function RenderItems(items: seq<Item>, fmt: real -> string): (r: seq<string>)
    ensures |r| == |items|
  {
    seq(|items|, i requires 0 <= i < |items| => RenderItem(items[i], fmt))
  }

  lemma {:induction false} JoinItems(items: seq<Item>, fmt: real -> string)
    requires |items| > 0 && GroupsNonEmpty(items)
    ensures |Flatten(items)| > 0
    ensures Join(RenderItems(items, fmt), " ") == Join(TokenTexts(Flatten(items), fmt), " ")
    decreases |items|
  {
    var first := ItemTokens(items[0]);
    assert Flatten(items) == first + Flatten(items[1..]);
    RenderItemTokens(items[0], fmt);
    if |items| > 1 {
      var rest := items[1..];
      assert GroupsNonEmpty(rest) by {
        forall i | 0 <= i < |rest| && rest[i].Group?
          ensures |rest[i].values| > 0
        {
          assert rest[i] == items[i + 1];
        }
      }
      JoinItems(rest, fmt);
      assert RenderItems(items, fmt) == [RenderItem(items[0], fmt)] + RenderItems(rest, fmt);
      TokenTextsAppend(first, Flatten(rest), fmt);
      JoinAppend(TokenTexts(first, fmt), TokenTexts(Flatten(rest), fmt), " ");
    } else {
      assert Flatten(items[1..]) == [];
      assert Flatten(items) == first;
    }
  }

  /** `FlipSvgPath(d, viewBoxH)` with the float formatter
      `strconv.FormatFloat(v, 'f', -1, 64)` as the parameter `fmt`. It
      finishes exactly when the path's tokens are flippable, and then prints
      every token of the path, mirrored on its own, separated by single
      spaces. */
  function FlipSvgPath(d: string, viewBoxH: int, fmt: real -> string): (r: Result<string, FlipError>)
    ensures r.Success? <==> Flippable(Tokens(d), None, 0)
    ensures r.Success? ==> r.value == Join(TokenTexts(Reflect(Tokens(d), None, 0, Height(viewBoxH)), fmt), " ")
  {
    var ts := Tokens(d);
    var h := Height(viewBoxH);
    ScanPrints(ts, h, fmt);
    match Scan(ts, None, [], h)
    case Failure(e) => Failure(e)
    case Success(items) => Success(Join(RenderItems(items, fmt), " "))
  }

  /** The token loop finishes exactly on flippable token lists, and then its
      printed output is every token mirrored on its own, separated by spaces. */
  lemma ScanPrints(ts: seq<Token>, h: int, fmt: real -> string)
    ensures Scan(ts, None, [], h).Success? <==> Flippable(ts, None, 0)
    ensures Scan(ts, None, [], h).Success? ==>
      Join(RenderItems(Scan(ts, None, [], h).value, fmt), " ") == Join(TokenTexts(Reflect(ts, None, 0, h), fmt), " ")
  {
    ScanFlips(ts, None, [], h);
    var r := Scan(ts, None, [], h);
    if r.Success? {
      var items := r.value;
      assert Flatten(items) == Reflect(ts, None, 0, h) by {
        assert FlipRun(None, [], h) == [];
      }
      if |items| > 0 {
        JoinItems(items, fmt);
      } else {
        assert TokenTexts(Reflect(ts, None, 0, h), fmt) == [];
      }
    }
  }

  /** Flipping the tokens of a flipped path gives the original tokens back. */
  lemma FlipInvolution(ts: seq<Token>, h: int)
    requires Flippable(ts, None, 0)
    ensures Flippable(Reflect(ts, None, 0, h), None, 0)
    ensures Reflect(Reflect(ts, None, 0, h), None, 0, h) == ts
  {
    ReflectFlippable(ts, None, 0, h);
    ReflectTwice(ts, None, 0, h);
  }

  /** Mirroring keeps the command letters and their order. */
  lemma {:induction false} ReflectKeepsCommands(ts: seq<Token>, cmd: Option<char>, k: nat, h: int)
    ensures CommandsOf(Reflect(ts, cmd, k, h)) == CommandsOf(ts)
    decreases |ts|
  {
    if |ts| > 0 {
      var r := Reflect(ts, cmd, k, h);
      match ts[0]
      case Command(c) =>
        ReflectKeepsCommands(ts[1..], Some(c), 0, h);
        assert r[1..] == Reflect(ts[1..], Some(c), 0, h);
      case Number(v) =>
        ReflectKeepsCommands(ts[1..], cmd, k + 1, h);
        assert r[1..] == Reflect(ts[1..], cmd, k + 1, h);
    }
  }

  /** Worked cases: an absolute move and line in a view box of height 100, a
      relative vertical line, an arc cut short, parameters with no command or
      after Z, and a zero view-box height standing for the default 3620. */
  lemma FlipExamples()
    ensures Reflect([Command('M'), Number(10.0), Number(20.0), Command('L'), Number(30.0), Number(40.0)], None, 0, 100)
         == [Command('M'), Number(10.0), Number(80.0), Command('L'), Number(30.0), Number(60.0)]
    ensures Reflect([Command('v'), Number(15.0)], None, 0, 100) == [Command('v'), Number(-15.0)]
    ensures Scan([Command('A'), Number(1.0), Number(2.0), Number(3.0)], None, [], 100) == Failure(IndexPanic)
    ensures Scan([Number(5.0)], None, [], 100) == Failure(NeverEnds)
    ensures Scan([Command('Z'), Number(5.0)], None, [], 100) == Failure(NeverEnds)
    ensures Reflect([Command('V'), Number(20.0)], None, 0, Height(0)) == [Command('V'), Number(3600.0)]
  {
  }

  /** A whole path from text to text: "M10 20 L30 40" in a view box of
      height 100 prints its two points mirrored, each number through `fmt`. */
  lemma FlipPathExample(d: string, fmt: real -> string)
    requires d == "M10 20 L30 40"
    ensures FlipSvgPath(d, 100, fmt) == Success(Join(["M", fmt(10.0), fmt(80.0), "L", fmt(30.0), fmt(60.0)], " "))
  {
    TokensExample(d);
    FlipTokensExample(Tokens(d), fmt);
  }

  lemma FlipTokensExample(ts: seq<Token>, fmt: real -> string)
    requires ts == [Command('M'), Number(10.0), Number(20.0), Command('L'), Number(30.0), Number(40.0)]
    ensures Flippable(ts, None, 0)
    ensures TokenTexts(Reflect(ts, None, 0, Height(100)), fmt) == ["M", fmt(10.0), fmt(80.0), "L", fmt(30.0), fmt(60.0)]
  {
    FlipExamples();
    assert Height(100) == 100;
    var out := [Command('M'), Number(10.0), Number(80.0), Command('L'), Number(30.0), Number(60.0)];
    assert TokenTexts(out, fmt) == ["M", fmt(10.0), fmt(80.0), "L", fmt(30.0), fmt(60.0)];
  }
}
