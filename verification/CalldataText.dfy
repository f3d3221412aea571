/**
 The text of a calldata item: tokens separated by single spaces, each an operation, a literal or a
 name that the context resolves.
 */
module CalldataText {
  import opened Common
  import opened Word256
  import opened CalldataStack

  // ---------------------------------------------------------------- splitting at spaces

  function Split(s: string): (parts: seq<string>)
    ensures parts != []
  {
    if s == "" then [""]
    else
      var rest := Split(s[1..]);
      if s[0] == ' ' then [""] + rest else [[s[0]] + rest[0]] + rest[1..]
  }

  function Join(parts: seq<string>): string
    requires parts != []
  {
    if |parts| == 1 then parts[0] else parts[0] + " " + Join(parts[1..])
  }

  predicate Spaceless(s: string) {
    ' ' !in s
  }

  lemma {:induction false} SplitIsSpaceless(s: string)
    ensures forall part <- Split(s) :: Spaceless(part)
  {
    if s != "" {
      SplitIsSpaceless(s[1..]);
      var rest := Split(s[1..]);
      assert rest[0] in rest;
      forall part | part in Split(s)
        ensures Spaceless(part)
      {
        if s[0] == ' ' {
          assert part == "" || part in rest;
        } else {
          assert part == [s[0]] + rest[0] || part in rest[1..];
        }
      }
    }
  }

  lemma {:induction false} JoinSplit(s: string)
    ensures Join(Split(s)) == s
  {
    if s != "" {
      var rest := Split(s[1..]);
      JoinSplit(s[1..]);
      if s[0] == ' ' {
        assert ([""] + rest)[1..] == rest;
        assert s == " " + s[1..];
      } else {
        assert Split(s)[1..] == rest[1..];
        assert s == [s[0]] + s[1..];
      }
    }
  }

  lemma {:induction false} SplitJoin(parts: seq<string>)
    requires parts != [] && forall part <- parts :: Spaceless(part)
    ensures Split(Join(parts)) == parts
    decreases |parts|
  {
    if |parts| == 1 {
      SplitWord(parts[0], "");
      assert parts[0] + "" == parts[0] && parts == [parts[0]];
    } else {
      SplitJoin(parts[1..]);
      var tail := " " + Join(parts[1..]);
      SplitWord(parts[0], tail);
      assert parts[0] + " " + Join(parts[1..]) == parts[0] + tail;
      assert tail[1..] == Join(parts[1..]);
      assert Split(tail) == [""] + parts[1..];
      assert Split(tail)[1..] == parts[1..] && parts[0] + "" == parts[0];
      assert parts == [parts[0]] + parts[1..];
    }
  }

  lemma {:induction false} SplitWord(word: string, rest: string)
    requires Spaceless(word)
    ensures Split(word + rest) == [word + Split(rest)[0]] + Split(rest)[1..]
  {
    if word == "" {
      assert word + rest == rest && word + Split(rest)[0] == Split(rest)[0];
    } else {
      SplitWord(word[1..], rest);
      assert word[0] in word;
      SplitLetter(word[0], word[1..] + rest, word[1..] + Split(rest)[0], Split(rest)[1..]);
      assert [word[0]] + (word[1..] + rest) == word + rest;
      assert [word[0]] + (word[1..] + Split(rest)[0]) == word + Split(rest)[0];
    }
  }

  lemma SplitLetter(c: char, s: string, first: string, parts: seq<string>)
    requires c != ' ' && Split(s) == [first] + parts
    ensures Split([c] + s) == [[c] + first] + parts
  {
    assert ([c] + s)[1..] == s;
  }

  // ---------------------------------------------------------------- tokens

  function Symbol(op: Operation): string {
    match op
    case Addition => "+"
    case Subtraction => "-"
    case Division => "/"
    case Multiplication => "*"
    case BitwiseAnd => "&"
    case BitwiseOr => "|"
    case BitwiseXor => "^"
    case ShiftLeft => "<<"
    case ShiftRight => ">>"
  }

  function TokenOf(text: string): (token: Token<string>)
    ensures TextOf(token) == text
  {
    if text == "+" then Operate(Addition)
    else if text == "-" then Operate(Subtraction)
    else if text == "/" then Operate(Division)
    else if text == "*" then Operate(Multiplication)
    else if text == "&" then Operate(BitwiseAnd)
    else if text == "|" then Operate(BitwiseOr)
    else if text == "^" then Operate(BitwiseXor)
    else if text == "<<" then Operate(ShiftLeft)
    else if text == ">>" then Operate(ShiftRight)
    else Item(text)
  }

  function TextOf(token: Token<string>): string {
    match token
    case Item(text) => text
    case Operate(op) => Symbol(op)
  }

  // A token that can stand between spaces: an operation, or an item that does not read as one.
  predicate IsWord(token: Token<string>) {
    Spaceless(TextOf(token)) && TokenOf(TextOf(token)) == token
  }

  lemma OperationsAreWords(op: Operation)
    ensures IsWord(Operate(op))
  {
  }

  function Tokens(s: string): (tokens: seq<Token<string>>)
    ensures tokens != []
  {
    var parts := Split(s);
    seq(|parts|, i requires 0 <= i < |parts| => TokenOf(parts[i]))
  }

  function Text(tokens: seq<Token<string>>): string
    requires tokens != []
  {
    Join(seq(|tokens|, i requires 0 <= i < |tokens| => TextOf(tokens[i])))
  }

  /** Reading tokens back from their text, and writing the tokens of any text. */
  lemma TokensOfText(tokens: seq<Token<string>>)
    requires tokens != [] && forall t <- tokens :: IsWord(t)
    ensures Tokens(Text(tokens)) == tokens
  {
    var parts := seq(|tokens|, i requires 0 <= i < |tokens| => TextOf(tokens[i]));
    forall part | part in parts
      ensures Spaceless(part)
    {
      var i :| 0 <= i < |parts| && parts[i] == part;
      assert tokens[i] in tokens;
    }
    SplitJoin(parts);
    forall i | 0 <= i < |tokens|
      ensures TokenOf(parts[i]) == tokens[i]
    {
      assert tokens[i] in tokens;
    }
  }

  lemma TextOfTokens(s: string)
    ensures Text(Tokens(s)) == s
    ensures forall t <- Tokens(s) :: IsWord(t)
  {
    var parts := Split(s);
    var tokens := Tokens(s);
    assert seq(|tokens|, i requires 0 <= i < |tokens| => TextOf(tokens[i])) == parts;
    JoinSplit(s);
    SplitIsSpaceless(s);
    forall t | t in tokens
      ensures IsWord(t)
    {
      var i :| 0 <= i < |tokens| && tokens[i] == t;
      assert parts[i] in parts;
    }
  }

  // ---------------------------------------------------------------- literals

  // The value of a digit, case-insensitive.
  function Digit(c: char): nat {
    if '0' <= c <= '9' then (c - '0') as nat
    else if 'a' <= c <= 'z' then (c - 'a') as nat + 10
    else if 'A' <= c <= 'Z' then (c - 'A') as nat + 10
    else 36
  }

  // The number written in `s` behind one of value `acc`; underscores are skipped.
  function FromRadix(s: string, radix: nat, acc: U256): Option<U256> {
    if s == "" then Some(acc)
    else if s[0] == '_' then FromRadix(s[1..], radix, acc)
    else
      var d := Digit(s[0]);
      if d >= radix || acc * radix + d >= TwoTo256 then None
      else FromRadix(s[1..], radix, acc * radix + d)
  }

  predicate StartsWith(s: string, prefix: string) {
    |prefix| <= |s| && s[..|prefix|] == prefix
  }

  predicate EndsWith(s: string, suffix: string) {
    |suffix| <= |s| && s[|s| - |suffix|..] == suffix
  }

  // Names whose value comes from the chain, the transaction or the interpreter's variables.
  predicate IsName(item: string) {
    || item == "$CHAIN_ID"
    || item == "$TRANSACTION_GAS_PRICE"
    || item == "$GAS_LIMIT"
    || item == "$COINBASE"
    || item == "$DIFFICULTY"
    || item == "$BASE_FEE"
    || StartsWith(item, "$BLOCK_HASH")
    || item == "$BLOCK_NUMBER"
    || item == "$BLOCK_TIMESTAMP"
    || item == "$RANDOM_ADDRESS"
    || StartsWith(item, "$VARIABLE:")
  }

  /** What the context answers for the name that is the token at the given position. */
  type Context = (nat, string) -> Option<U256>

  function ResolveItem(item: string, position: nat, context: Context): Option<U256> {
    if EndsWith(item, ".address") then context(position, item)
    else if StartsWith(item, "-") then NegativeLiteral(item[1..])
    else if StartsWith(item, "0x") then FromRadix(item[2..], 16, 0)
    else if IsName(item) then context(position, item)
    else FromRadix(item, 10, 0)
  }

  function NegativeLiteral(digits: string): Option<U256> {
    var value := FromRadix(digits, 10, 0);
    if value.None? || value.value > TwoTo255 || value.value == 0 then None
    else Some((TwoTo256 - 1) - (value.value - 1))
  }

  function Signed(i: int): string {
    if i < 0 then "-" + Decimal(-i) else Decimal(i)
  }

  lemma DigitOf(d: nat)
    requires d < 10
    ensures Digit(d as char + '0') == d
  {
  }

  lemma OneMoreDigit(d: nat, rest: string, acc: U256)
    requires d < 10
    ensures FromRadix([d as char + '0'] + rest, 10, acc)
         == if acc * 10 + d >= TwoTo256 then None else FromRadix(rest, 10, acc * 10 + d)
  {
    DigitOf(d);
    assert ([d as char + '0'] + rest)[1..] == rest;
  }

  lemma {:induction false} FromRadixOfDecimal(n: nat, rest: string)
    ensures FromRadix(Decimal(n) + rest, 10, 0)
         == if n < TwoTo256 then FromRadix(rest, 10, n) else None
    decreases n
  {
    var last := [(n % 10) as char + '0'];
    if n < 10 {
      OneMoreDigit(n, rest, 0);
    } else {
      FromRadixOfDecimal(n / 10, last + rest);
      assert Decimal(n) + rest == Decimal(n / 10) + (last + rest);
      if n / 10 < TwoTo256 {
        OneMoreDigit(n % 10, rest, n / 10);
      }
    }
  }

  lemma DecimalIsDecimal(n: nat)
    ensures FromRadix(Decimal(n), 10, 0) == if n < TwoTo256 then Some(n) else None
  {
    FromRadixOfDecimal(n, "");
    assert Decimal(n) + "" == Decimal(n);
  }

  lemma DecimalIsPlain(n: nat, position: nat, context: Context)
    ensures ResolveItem(Decimal(n), position, context) == FromRadix(Decimal(n), 10, 0)
    ensures ResolveItem("-" + Decimal(n), position, context) == NegativeLiteral(Decimal(n))
  {
    var digits := Decimal(n);
    var last := digits[|digits| - 1];
    assert last in digits && digits[0] in digits;
    if |digits| > 1 {
      assert digits[1] in digits;
    }
    LastOfSuffix(digits, ".address", 's');
    LastOfSuffix("-" + digits, ".address", 's');
    assert ("-" + digits)[1..] == digits;
    assert StartsWith("-" + digits, "-");
    NotAName(digits);
  }

  lemma LastOfSuffix(s: string, suffix: string, last: char)
    requires s != "" && suffix != "" && suffix[|suffix| - 1] == last && s[|s| - 1] != last
    ensures !EndsWith(s, suffix)
  {
  }

  lemma NotAName(digits: string)
    requires digits != "" && forall c <- digits :: '0' <= c <= '9'
    ensures !IsName(digits) && !StartsWith(digits, "-") && !StartsWith(digits, "0x")
  {
    assert digits[0] in digits;
    if |digits| > 1 {
      assert digits[1] in digits;
    }
    if IsName(digits) {
      NamesStartWithDollar(digits);
    }
  }

  lemma NamesStartWithDollar(item: string)
    requires IsName(item)
    ensures item != "" && item[0] == '$'
  {
    assert StartsWith(item, "$BLOCK_HASH") ==> item[0] == item[..11][0];
    assert StartsWith(item, "$VARIABLE:") ==> item[0] == item[..10][0];
  }

  /** A literal is read as the word congruent to it; negative ones reach down to -2^255, and zero
      takes no sign. */
  lemma LiteralIsTwosComplement(n: nat, position: nat, context: Context)
    ensures ResolveItem(Signed(n), position, context) == if n < TwoTo256 then Some(n) else None
    ensures ResolveItem("-" + Decimal(n), position, context)
         == if 0 < n <= TwoTo255 then Some(TwoTo256 - n) else None
    ensures n > 0 ==> Signed(0 - n) == "-" + Decimal(n)
  {
    DecimalIsPlain(n, position, context);
    DecimalIsDecimal(n);
  }

  // A number in base 16.
  function Hex(n: nat): (s: string)
    ensures s != ""
  {
    var last := [if n % 16 < 10 then (n % 16) as char + '0' else (n % 16 - 10) as char + 'a'];
    if n < 16 then last else Hex(n / 16) + last
  }

  lemma {:induction false} FromRadixOfHex(n: nat, rest: string)
    ensures FromRadix(Hex(n) + rest, 16, 0) == if n < TwoTo256 then FromRadix(rest, 16, n) else None
    decreases n
  {
    var last := Hex(n % 16);
    if n < 16 {
      OneMoreHexDigit(n, rest, 0);
    } else {
      FromRadixOfHex(n / 16, last + rest);
      assert Hex(n) + rest == Hex(n / 16) + (last + rest);
      if n / 16 < TwoTo256 {
        OneMoreHexDigit(n % 16, rest, n / 16);
      }
    }
  }

  lemma OneMoreHexDigit(d: nat, rest: string, acc: U256)
    requires d < 16
    ensures FromRadix(Hex(d) + rest, 16, acc)
         == if acc * 16 + d >= TwoTo256 then None else FromRadix(rest, 16, acc * 16 + d)
  {
    assert |Hex(d)| == 1 && (Hex(d) + rest)[1..] == rest;
    assert Digit(Hex(d)[0]) == d && Hex(d)[0] != '_';
  }

  /** A hexadecimal literal is read as its number, and fails beyond 256 bits. */
  lemma HexLiteral(n: nat, position: nat, context: Context)
    ensures ResolveItem("0x" + Hex(n), position, context) == if n < TwoTo256 then Some(n) else None
  {
    var item := "0x" + Hex(n);
    HexDigits(n);
    var digits := Hex(n);
    assert digits[|digits| - 1] in digits && item[|item| - 1] == digits[|digits| - 1];
    LastOfSuffix(item, ".address", 's');
    assert item[..2] == "0x" && item[2..] == digits && item[0] == '0';
    FromRadixOfHex(n, "");
    assert digits + "" == digits;
  }

  lemma {:induction false} HexDigits(n: nat)
    ensures forall c <- Hex(n) :: IsDigit(c) || 'a' <= c <= 'f'
    decreases n
  {
    if n >= 16 {
      HexDigits(n / 16);
    }
  }

  /** The names that are looked up instead of read: addresses, the chain's and the transaction's figures,
      and the variables of the interpreter. */
  lemma NamesAreLookedUp(rest: string, position: nat, context: Context)
    ensures ResolveItem(rest + ".address", position, context) == context(position, rest + ".address")
    ensures forall name | name in ["$CHAIN_ID", "$TRANSACTION_GAS_PRICE", "$GAS_LIMIT", "$COINBASE", "$DIFFICULTY",
      "$BASE_FEE", "$BLOCK_NUMBER", "$BLOCK_TIMESTAMP", "$RANDOM_ADDRESS", "$BLOCK_HASH" + rest, "$VARIABLE:" + rest] ::
        ResolveItem(name, position, context) == context(position, name)
  {
    assert (rest + ".address")[|rest|..] == ".address";
    assert ("$BLOCK_HASH" + rest)[..11] == "$BLOCK_HASH" && ("$VARIABLE:" + rest)[..10] == "$VARIABLE:";
    forall name | IsName(name)
      ensures ResolveItem(name, position, context) == context(position, name)
    {
      NamesStartWithDollar(name);
    }
  }

  // ---------------------------------------------------------------- resolving the text

  function Resolved(tokens: seq<Token<string>>, position: nat, context: Context): seq<Token<CalldataStack.Resolved>> {
    seq(|tokens|, i requires 0 <= i < |tokens| => ResolvedToken(tokens[i], position + i, context))
  }

  function ResolvedToken(token: Token<string>, position: nat, context: Context): Token<CalldataStack.Resolved> {
    match token
    case Item(text) => Item(ResolveItem(text, position, context))
    case Operate(op) => Operate(op)
  }

  /** The value of a tree of texts whose first token stands at `position`. */
  function EvalAt(e: Expr<string>, position: nat, context: Context): Option<U256> {
    Eval(ResolvedTree(e, position, context))
  }

  function ResolvedTree(e: Expr<string>, position: nat, context: Context): Expr<CalldataStack.Resolved> {
    match e
    case Lit(text) => Lit(ResolveItem(text, position, context))
    case Bin(op, left, right) =>
      Bin(op, ResolvedTree(left, position, context), ResolvedTree(right, position + |Postfix(left)|, context))
  }

  lemma ResolvedConcat(a: seq<Token<string>>, b: seq<Token<string>>, position: nat, context: Context)
    ensures Resolved(a + b, position, context)
         == Resolved(a, position, context) + Resolved(b, position + |a|, context)
  {
  }

  lemma ResolvedSlices(tokens: seq<Token<string>>, m: nat, n: nat, position: nat, context: Context)
    requires m <= n <= |tokens|
    ensures Resolved(tokens, position, context)[..m] == Resolved(tokens[..m], position, context)
    ensures Resolved(tokens, position, context)[m..n] == Resolved(tokens[m..n], position + m, context)
  {
  }

  lemma {:induction false} PostfixOfResolvedTree(e: Expr<string>, position: nat, context: Context)
    ensures Postfix(ResolvedTree(e, position, context)) == Resolved(Postfix(e), position, context)
  {
    match e
    case Lit(text) =>
    case Bin(op, left, right) =>
      PostfixOfResolvedTree(left, position, context);
      PostfixOfResolvedTree(right, position + |Postfix(left)|, context);
      ResolvedConcat(Postfix(left), Postfix(right), position, context);
      ResolvedConcat(Postfix(left) + Postfix(right), [Operate(op)], position, context);
      assert Resolved([Operate(op)], position + |Postfix(left) + Postfix(right)|, context) == [Operate(op)];
  }

  lemma PostfixOfBin<T>(e: Expr<T>)
    requires e.Bin?
    ensures var p := Postfix(e); var m := |Postfix(e.left)|; var n := |p| - 1;
      m <= n && p[..m] == Postfix(e.left) && p[m..n] == Postfix(e.right) && p[n] == Operate(e.op)
  {
  }

  // The tree of texts behind a tree of values.
  lemma {:induction false} TreeOfTexts(tokens: seq<Token<string>>, position: nat, context: Context, v: Expr<CalldataStack.Resolved>) returns (e: Expr<string>)
    requires Postfix(v) == Resolved(tokens, position, context)
    ensures Postfix(e) == tokens && ResolvedTree(e, position, context) == v
    decreases v
  {
    match v
    case Lit(value) =>
      assert Resolved(tokens, position, context)[0] == Item(value);
      e := Lit(tokens[0].item);
    case Bin(op, l, r) =>
      var m := |Postfix(l)|;
      var n := |tokens| - 1;
      OperandTokens(tokens, position, context, v);
      var left := TreeOfTexts(tokens[..m], position, context, l);
      var right := TreeOfTexts(tokens[m..n], position + m, context, r);
      e := Bin(op, left, right);
      JoinTexts(tokens, position, context, v, left, right);
  }

  lemma JoinTexts(tokens: seq<Token<string>>, position: nat, context: Context, v: Expr<CalldataStack.Resolved>,
      left: Expr<string>, right: Expr<string>)
    requires v.Bin? && tokens != [] && tokens[|tokens| - 1] == Operate(v.op)
    requires var m := |Postfix(left)|;
      && m <= |tokens| - 1 && Postfix(left) == tokens[..m] && Postfix(right) == tokens[m..|tokens| - 1]
      && ResolvedTree(left, position, context) == v.left && ResolvedTree(right, position + m, context) == v.right
    ensures Postfix(Bin(v.op, left, right)) == tokens
    ensures ResolvedTree(Bin(v.op, left, right), position, context) == v
  {
    var m, n := |Postfix(left)|, |tokens| - 1;
    assert tokens == tokens[..m] + tokens[m..n] + [tokens[n]];
  }

  lemma OperandTokens(tokens: seq<Token<string>>, position: nat, context: Context, v: Expr<CalldataStack.Resolved>)
    requires v.Bin? && Postfix(v) == Resolved(tokens, position, context)
    ensures var m := |Postfix(v.left)|; var n := |tokens| - 1;
      && 0 <= m <= n
      && Postfix(v.left) == Resolved(tokens[..m], position, context)
      && Postfix(v.right) == Resolved(tokens[m..n], position + m, context)
      && tokens[n] == Operate(v.op)
  {
    var p, m := Postfix(v), |Postfix(v.left)|;
    var n := |tokens| - 1;
    PostfixOfBin(v);
    assert |p| == |tokens|;
    ResolvedSlices(tokens, m, n, position, context);
    ResolvedAt(tokens, n, position, context);
  }

  lemma ResolvedAt(tokens: seq<Token<string>>, n: nat, position: nat, context: Context)
    requires n < |tokens|
    ensures Resolved(tokens, position, context)[n].Operate? ==>
      tokens[n] == Operate(Resolved(tokens, position, context)[n].op)
  {
    assert Resolved(tokens, position, context)[n] == ResolvedToken(tokens[n], position + n, context);
  }

  /** The value of a calldata item. */
  function ResolveText(s: string, context: Context): Option<U256> {
    Resolve(Resolved(Tokens(s), 0, context))
  }

  predicate Wordy(e: Expr<string>) {
    match e
    case Lit(text) => IsWord(Item(text))
    case Bin(_, left, right) => Wordy(left) && Wordy(right)
  }

  lemma {:induction false} WordyIffWords(e: Expr<string>)
    ensures Wordy(e) <==> forall t <- Postfix(e) :: IsWord(t)
  {
    match e
    case Lit(text) =>
      assert Postfix(e)[0] == Item(text);
    case Bin(op, left, right) =>
      WordyIffWords(left);
      WordyIffWords(right);
      OperationsAreWords(op);
      if forall t <- Postfix(e) :: IsWord(t) {
        assert forall t <- Postfix(left) :: t in Postfix(e);
        assert forall t <- Postfix(right) :: t in Postfix(e);
      }
  }

  /** Writing a tree in reverse Polish order and resolving the text gives the tree's value, and fails
      exactly when the tree has none. */
  lemma ResolveTextOfTree(e: Expr<string>, context: Context)
    requires Wordy(e)
    ensures ResolveText(Text(Postfix(e)), context) == EvalAt(e, 0, context)
  {
    WordyIffWords(e);
    TokensOfText(Postfix(e));
    PostfixOfResolvedTree(e, 0, context);
    ResolvePostfix(ResolvedTree(e, 0, context));
  }

  /** Text that resolves is the reverse Polish form of exactly one tree. */
  lemma ResolvingTextIsOneTree(s: string, context: Context, v: U256)
    ensures ResolveText(s, context) == Some(v)
      <==> exists e :: Wordy(e) && Text(Postfix(e)) == s && EvalAt(e, 0, context) == Some(v)
    ensures forall e, f :: Wordy(e) && Wordy(f) && Text(Postfix(e)) == s && Text(Postfix(f)) == s ==> e == f
  {
    if ResolveText(s, context) == Some(v) {
      var tokens := Tokens(s);
      ResolvesIffPostfix(Resolved(tokens, 0, context), v);
      var tree :| Postfix(tree) == Resolved(tokens, 0, context) && Eval(tree) == Some(v);
      var e := TreeOfTexts(tokens, 0, context, tree);
      TextOfTokens(s);
      WordyIffWords(e);
      assert Wordy(e) && Text(Postfix(e)) == s && EvalAt(e, 0, context) == Some(v);
    }
    forall e | Wordy(e) && Text(Postfix(e)) == s && EvalAt(e, 0, context) == Some(v)
      ensures ResolveText(s, context) == Some(v)
    {
      ResolveTextOfTree(e, context);
    }
    forall e, f | Wordy(e) && Wordy(f) && Text(Postfix(e)) == s && Text(Postfix(f)) == s
      ensures e == f
    {
      WordyIffWords(e);
      WordyIffWords(f);
      TokensOfText(Postfix(e));
      TokensOfText(Postfix(f));
      PostfixIsInjective(e, f);
    }
  }

  lemma OperationOnItems(op: Operation, x: string, y: string, symbol: string, a: U256, b: U256, context: Context)
    requires IsWord(Item(x)) && IsWord(Item(y)) && symbol == " " + Symbol(op)
    requires ResolveItem(x, 0, context) == Some(a) && ResolveItem(y, 1, context) == Some(b)
    ensures ResolveText(x + " " + y + symbol, context) == Apply(op, a, b)
  {
    var e := Bin(op, Lit(x), Lit(y));
    ResolveTextOfTree(e, context);
    TextOfOperation(op, x, y, symbol);
    ValueOfOperation(op, x, y, a, b, context);
  }

  lemma TextOfOperation(op: Operation, x: string, y: string, symbol: string)
    requires symbol == " " + Symbol(op)
    ensures Text(Postfix(Bin(op, Lit(x), Lit(y)))) == x + " " + y + symbol
  {
    assert Postfix(Lit(x)) == [Item(x)];
    assert Postfix(Bin(op, Lit(x), Lit(y))) == [Item(x), Item(y), Operate(op)];
    TextOfThree(Item(x), Item(y), Operate(op));
    assert x + " " + y + symbol == x + " " + y + " " + Symbol(op);
  }

  lemma ValueOfOperation(op: Operation, x: string, y: string, a: U256, b: U256, context: Context)
    requires ResolveItem(x, 0, context) == Some(a) && ResolveItem(y, 1, context) == Some(b)
    ensures EvalAt(Bin(op, Lit(x), Lit(y)), 0, context) == Apply(op, a, b)
  {
    assert |Postfix(Lit(x))| == 1;
    var l: Expr<CalldataStack.Resolved>, r: Expr<CalldataStack.Resolved> := Lit(Some(a)), Lit(Some(b));
    assert ResolvedTree(Bin(op, Lit(x), Lit(y)), 0, context) == Bin(op, l, r);
    assert Eval(l) == Some(a) && Eval(r) == Some(b);
    assert Eval(Bin(op, l, r)) == Apply(op, a, b);
  }

  /** Two numbers and an operation behind them, as text. */
  lemma WrittenOperation(op: Operation, symbol: string, a: U256, b: U256, context: Context)
    requires symbol == " " + Symbol(op)
    ensures ResolveText(Decimal(a) + " " + Decimal(b) + symbol, context) == Apply(op, a, b)
  {
    DigitsAreWord(Decimal(a));
    DigitsAreWord(Decimal(b));
    DecimalItem(a, 0, context);
    DecimalItem(b, 1, context);
    OperationOnItems(op, Decimal(a), Decimal(b), symbol, a, b, context);
  }

  lemma DecimalItem(n: U256, position: nat, context: Context)
    ensures ResolveItem(Decimal(n), position, context) == Some(n)
  {
    LiteralIsTwosComplement(n, position, context);
  }

  lemma TextOfThree(x: Token<string>, y: Token<string>, z: Token<string>)
    ensures Text([x, y, z]) == TextOf(x) + " " + TextOf(y) + " " + TextOf(z)
  {
    var tokens := [x, y, z];
    var parts := seq(|tokens|, i requires 0 <= i < |tokens| => TextOf(tokens[i]));
    var two := parts[1..];
    assert |two| == 2 && two[0] == TextOf(y) && two[1..] == [TextOf(z)];
    assert Join(two) == TextOf(y) + " " + Join(two[1..]) && Join(two[1..]) == TextOf(z);
    assert Join(parts) == TextOf(x) + " " + (TextOf(y) + " " + TextOf(z));
    assert TextOf(x) + " " + (TextOf(y) + " " + TextOf(z)) == TextOf(x) + " " + TextOf(y) + " " + TextOf(z);
  }

  lemma DigitsAreWord(s: string)
    requires s != "" && forall c <- s :: '0' <= c <= '9'
    ensures IsWord(Item(s))
  {
    assert s[0] in s;
    assert ' ' !in s;
    assert s[0] != "+"[0] && s[0] != "-"[0] && s[0] != "/"[0] && s[0] != "*"[0] && s[0] != "&"[0]
      && s[0] != "|"[0] && s[0] != "^"[0] && s[0] != "<<"[0] && s[0] != ">>"[0];
  }

  /** The operations by their symbols, the left operand first. */
  lemma WrittenArithmetic(a: U256, b: U256, context: Context)
    ensures var ab := Decimal(a) + " " + Decimal(b);
      && ResolveText(ab + " +", context) == (if a + b < TwoTo256 then Some(a + b) else None)
      && ResolveText(ab + " -", context) == (if a < b then None else Some(a - b))
      && ResolveText(ab + " *", context) == (if a * b < TwoTo256 then Some(a * b) else None)
      && IsQuotient(ResolveText(ab + " /", context), a, b)
  {
    WrittenOperation(Addition, " +", a, b, context);
    WrittenOperation(Subtraction, " -", a, b, context);
    WrittenOperation(Multiplication, " *", a, b, context);
    WrittenOperation(Division, " /", a, b, context);
    ArithmeticIsExact(a, b);
  }

  // The quotient rounded down, and none for a divisor of zero.
  predicate IsQuotient(q: Option<U256>, a: U256, b: U256) {
    if b == 0 then q.None? else q.Some? && q.value * b <= a < q.value * b + b
  }

  // The operations on bits by their symbols.
  lemma WrittenAnd(a: U256, b: U256, context: Context)
    ensures ResolveText(Decimal(a) + " " + Decimal(b) + " &", context) == Apply(BitwiseAnd, a, b)
  {
    WrittenOperation(BitwiseAnd, " &", a, b, context);
  }

  lemma WrittenOr(a: U256, b: U256, context: Context)
    ensures ResolveText(Decimal(a) + " " + Decimal(b) + " |", context) == Apply(BitwiseOr, a, b)
  {
    WrittenOperation(BitwiseOr, " |", a, b, context);
  }

  lemma WrittenXor(a: U256, b: U256, context: Context)
    ensures ResolveText(Decimal(a) + " " + Decimal(b) + " ^", context) == Apply(BitwiseXor, a, b)
  {
    WrittenOperation(BitwiseXor, " ^", a, b, context);
  }

  lemma WrittenShifts(a: U256, b: U256, i: nat, context: Context)
    requires i < 256
    ensures var ab := Decimal(a) + " " + Decimal(b);
      var left, right := ResolveText(ab + " <<", context), ResolveText(ab + " >>", context);
      if b < 0x1_0000_0000_0000_0000
      then HasBit(left, i, i >= b && Bit(a, i - b)) && HasBit(right, i, Bit(a, i + b))
      else left == None && right == None
  {
    WrittenOperation(ShiftLeft, " <<", a, b, context);
    WrittenOperation(ShiftRight, " >>", a, b, context);
    if b < TwoTo64 {
      ShiftsMoveBits(a, b, i);
    }
  }

  // ---------------------------------------------------------------- the loop

  method ResolveCalldataItem(s: string, context: Context) returns (value: Option<U256>)
    ensures value == ResolveText(s, context)
  {
    var tokens := Tokens(s);
    ghost var resolved := Resolved(tokens, 0, context);
    var stack: seq<U256> := [];
    var i := 0;
    assert resolved[0..] == resolved;
    while i < |tokens|
      invariant i <= |tokens|
      invariant Run(resolved[i..], stack) == Run(resolved, [])
    {
      assert resolved[i..][1..] == resolved[i + 1..];
      match tokens[i] {
        case Item(text) =>
          var item := ResolveItem(text, i, context);
          if item.None? {
            return None;
          }
          stack := stack + [item.value];
        case Operate(op) =>
          if |stack| < 2 {
            return None;
          }
          var right := stack[|stack| - 1];
          var left := stack[|stack| - 2];
          var result := Apply(op, left, right);
          if result.None? {
            return None;
          }
          stack := stack[..|stack| - 2] + [result.value];
      }
      i := i + 1;
    }
    if |stack| == 0 {
      value := Some(0);
    } else if |stack| == 1 {
      value := Some(stack[0]);
    } else {
      value := None;
    }
  }
}
