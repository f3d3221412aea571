/**
 Calldata arithmetic: items and operations in reverse Polish order, evaluated on a stack.

 An item is the outcome of resolving its text: a word, or none when that failed.
 */
module CalldataStack {
  import opened Common
  import opened Word256

  datatype Token<T> = Item(item: T) | Operate(op: Operation)

  type Resolved = Option<U256>

  // ---------------------------------------------------------------- the stack machine

  // The stack after the tokens, its top last; none when a token fails.
  function Run(tokens: seq<Token<Resolved>>, stack: seq<U256>): Option<seq<U256>>
    decreases |tokens|
  {
    if tokens == [] then Some(stack)
    else
      var next := Push(tokens[0], stack);
      if next.None? then None else Run(tokens[1..], next.value)
  }

  function Push(token: Token<Resolved>, stack: seq<U256>): Option<seq<U256>> {
    match token
    case Item(value) => if value.None? then None else Some(stack + [value.value])
    case Operate(op) =>
      var n := |stack|;
      if n < 2 then None
      else
        var result := Apply(op, stack[n - 2], stack[n - 1]);
        if result.None? then None else Some(stack[..n - 2] + [result.value])
  }

  /** The word a token list stands for. */
  function Resolve(tokens: seq<Token<Resolved>>): Option<U256> {
    var stack := Run(tokens, []);
    if stack.None? then None
    else if |stack.value| == 0 then Some(0)
    else if |stack.value| == 1 then Some(stack.value[0])
    else None
  }

  // ---------------------------------------------------------------- trees

  datatype Expr<T> = Lit(item: T) | Bin(op: Operation, left: Expr<T>, right: Expr<T>)

  function Postfix<T>(e: Expr<T>): (tokens: seq<Token<T>>)
    ensures |tokens| > 0
  {
    match e
    case Lit(item) => [Item(item)]
    case Bin(op, left, right) => Postfix(left) + Postfix(right) + [Operate(op)]
  }

  function Eval(e: Expr<Resolved>): Option<U256> {
    match e
    case Lit(item) => item
    case Bin(op, left, right) =>
      var l := Eval(left);
      var r := Eval(right);
      if l.None? || r.None? then None else Apply(op, l.value, r.value)
  }

  /** Running the tokens of a tree pushes its value, or fails when it has none. */
  lemma {:induction false} RunPostfix(e: Expr<Resolved>, rest: seq<Token<Resolved>>, stack: seq<U256>)
    ensures Run(Postfix(e) + rest, stack)
         == if Eval(e).None? then None else Run(rest, stack + [Eval(e).value])
    decreases e
  {
    match e
    case Lit(item) =>
      assert (Postfix(e) + rest)[1..] == rest;
    case Bin(op, left, right) =>
      var tail := [Operate(op)] + rest;
      assert Postfix(e) + rest == Postfix(left) + (Postfix(right) + tail);
      RunPostfix(left, Postfix(right) + tail, stack);
      if Eval(left).Some? {
        var stack' := stack + [Eval(left).value];
        RunPostfix(right, tail, stack');
        if Eval(right).Some? {
          var stack'' := stack' + [Eval(right).value];
          assert tail[1..] == rest;
          assert stack''[..|stack|] == stack;
        }
      }
  }

  /** The tokens of a tree resolve to its value, and fail exactly when the tree does. */
  lemma ResolvePostfix(e: Expr<Resolved>)
    ensures Resolve(Postfix(e)) == Eval(e)
  {
    RunPostfix(e, [], []);
    assert Postfix(e) + [] == Postfix(e);
  }

  // ---------------------------------------------------------------- every token list is a tree's

  function PostfixAll<T>(forest: seq<Expr<T>>): seq<Token<T>> {
    if forest == [] then []
    else PostfixAll(forest[..|forest| - 1]) + Postfix(forest[|forest| - 1])
  }

  // The trees a token list builds on top of `forest`.
  function Build<T>(tokens: seq<Token<T>>, forest: seq<Expr<T>>): Option<seq<Expr<T>>>
    decreases |tokens|
  {
    if tokens == [] then Some(forest)
    else
      var n := |forest|;
      match tokens[0]
      case Item(item) => Build(tokens[1..], forest + [Lit(item)])
      case Operate(op) =>
        if n < 2 then None
        else Build(tokens[1..], forest[..n - 2] + [Bin(op, forest[n - 2], forest[n - 1])])
  }

  lemma {:induction false} BuildPostfix<T>(e: Expr<T>, rest: seq<Token<T>>, forest: seq<Expr<T>>)
    ensures Build(Postfix(e) + rest, forest) == Build(rest, forest + [e])
    decreases e
  {
    match e
    case Lit(item) =>
      assert (Postfix(e) + rest)[1..] == rest;
    case Bin(op, left, right) =>
      var tail := [Operate(op)] + rest;
      assert Postfix(e) + rest == Postfix(left) + (Postfix(right) + tail);
      BuildPostfix(left, Postfix(right) + tail, forest);
      BuildPostfix(right, tail, forest + [left]);
      assert tail[1..] == rest;
      assert (forest + [left] + [right])[..|forest|] == forest;
  }

  /** Different trees have different tokens. */
  lemma PostfixIsInjective<T>(e: Expr<T>, f: Expr<T>)
    requires Postfix(e) == Postfix(f)
    ensures e == f
  {
    BuildPostfix(e, [], []);
    BuildPostfix(f, [], []);
    assert Postfix(e) + [] == Postfix(e) && Postfix(f) + [] == Postfix(f);
    assert [] + [e] == [e] && [] + [f] == [f];
    assert [e][0] == [f][0];
  }

  function Values(forest: seq<Expr<Resolved>>): Option<seq<U256>> {
    if forest == [] then Some([])
    else
      var init := Values(forest[..|forest| - 1]);
      var last := Eval(forest[|forest| - 1]);
      if init.None? || last.None? then None else Some(init.value + [last.value])
  }

  lemma ValuesSnoc(forest: seq<Expr<Resolved>>, e: Expr<Resolved>)
    requires Values(forest).Some? && Eval(e).Some?
    ensures Values(forest + [e]) == Some(Values(forest).value + [Eval(e).value])
  {
    assert (forest + [e])[..|forest|] == forest;
  }

  lemma {:induction false} ValuesAt(forest: seq<Expr<Resolved>>)
    requires Values(forest).Some?
    ensures |Values(forest).value| == |forest|
    ensures forall i | 0 <= i < |forest| :: Eval(forest[i]) == Some(Values(forest).value[i])
    decreases |forest|
  {
    if forest != [] {
      ValuesAt(forest[..|forest| - 1]);
    }
  }

  lemma {:induction false} ValuesPrefix(forest: seq<Expr<Resolved>>, n: nat)
    requires Values(forest).Some? && n <= |forest|
    ensures |Values(forest).value| == |forest|
    ensures Values(forest[..n]) == Some(Values(forest).value[..n])
    decreases |forest|
  {
    ValuesAt(forest);
    if n == |forest| {
      assert forest[..n] == forest && Values(forest).value[..n] == Values(forest).value;
    } else {
      var init := forest[..|forest| - 1];
      ValuesPrefix(init, n);
      assert init[..n] == forest[..n];
      assert Values(forest).value[..n] == Values(init).value[..n];
    }
  }

  lemma PostfixAllSnoc<T>(forest: seq<Expr<T>>, e: Expr<T>)
    ensures PostfixAll(forest + [e]) == PostfixAll(forest) + Postfix(e)
  {
    assert (forest + [e])[..|forest|] == forest;
  }

  // The trees after one more token, whose values are those the stack machine computes.
  function Grow(token: Token<Resolved>, forest: seq<Expr<Resolved>>): (grown: seq<Expr<Resolved>>)
    requires Values(forest).Some? && Push(token, Values(forest).value).Some?
    ensures PostfixAll(grown) == PostfixAll(forest) + [token]
    ensures Values(grown) == Push(token, Values(forest).value)
  {
    var n := |forest|;
    ValuesAt(forest);
    match token
    case Item(item) =>
      ValuesSnoc(forest, Lit(item));
      PostfixAllSnoc(forest, Lit(item));
      forest + [Lit(item)]
    case Operate(op) =>
      var e := Bin(op, forest[n - 2], forest[n - 1]);
      ValuesPrefix(forest, n - 2);
      ValuesSnoc(forest[..n - 2], e);
      PostfixAllSnoc(forest[..n - 2], e);
      PostfixAllSnoc(forest[..n - 2], forest[n - 2]);
      assert forest[..n - 1] == forest[..n - 2] + [forest[n - 2]];
      forest[..n - 2] + [e]
  }

  lemma {:induction false} RunBuildsTrees(tokens: seq<Token<Resolved>>, forest: seq<Expr<Resolved>>) returns (built: seq<Expr<Resolved>>)
    requires Values(forest).Some? && Run(tokens, Values(forest).value).Some?
    ensures PostfixAll(built) == PostfixAll(forest) + tokens
    ensures Values(built) == Run(tokens, Values(forest).value)
    decreases |tokens|
  {
    if tokens == [] {
      built := forest;
    } else {
      var grown := Grow(tokens[0], forest);
      built := RunBuildsTrees(tokens[1..], grown);
      assert PostfixAll(forest) + [tokens[0]] + tokens[1..] == PostfixAll(forest) + tokens;
    }
  }

  /** A token list that resolves is that of exactly one tree, with the tree's value. */
  lemma ResolvesIffPostfix(tokens: seq<Token<Resolved>>, v: U256)
    requires tokens != []
    ensures Resolve(tokens) == Some(v) <==> exists e :: Postfix(e) == tokens && Eval(e) == Some(v)
    ensures forall e, f :: Postfix(e) == tokens && Postfix(f) == tokens ==> e == f
  {
    if Resolve(tokens) == Some(v) {
      var built := RunBuildsTrees(tokens, []);
      assert [] + tokens == tokens;
      ValuesAt(built);
      assert built != [];
      assert built == [built[0]];
      assert PostfixAll(built) == PostfixAll([]) + Postfix(built[0]) == Postfix(built[0]);
      assert Postfix(built[0]) == tokens && Eval(built[0]) == Some(v);
    }
    forall e | Postfix(e) == tokens && Eval(e) == Some(v)
      ensures Resolve(tokens) == Some(v)
    {
      ResolvePostfix(e);
    }
    forall e, f | Postfix(e) == tokens && Postfix(f) == tokens
      ensures e == f
    {
      PostfixIsInjective(e, f);
    }
  }
}
