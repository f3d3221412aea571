/**
 Variable names that contain the names of other variables: `$VARIABLE:` and a name inside a template
 stand for that variable's value in decimal.
 */
module VariableTemplate {
  import opened Common
  import opened Word256
  import opened CalldataText

  const Prefix: string := "$VARIABLE:"

  /** What marks an inner name: a text whose first character is nowhere else in it. */
  predicate IsMark(mark: string) {
    mark != "" && !IsAlphanumeric(mark[0]) && forall i | 0 < i < |mark| :: mark[i] != mark[0]
  }

  // Where the first mark starts.
  function Find(s: string, mark: string): (r: Option<nat>)
    ensures r.Some? ==> r.value + |mark| <= |s| && StartsWith(s[r.value..], mark)
  {
    if StartsWith(s, mark) then Some(0)
    else if s == "" then None
    else
      var rest := Find(s[1..], mark);
      if rest.None? then None
      else
        assert s[1..][rest.value..] == s[rest.value + 1..];
        Some(rest.value + 1)
  }

  // The length of the name at the start of `s`.
  function NameEnd(s: string): (n: nat)
    ensures n <= |s|
    ensures forall i | 0 <= i < n :: IsAlphanumeric(s[i])
    ensures n < |s| ==> !IsAlphanumeric(s[n])
  {
    if s == "" || !IsAlphanumeric(s[0]) then 0
    else
      var n := NameEnd(s[1..]);
      assert forall i | 1 <= i < n + 1 :: s[i] == s[1..][i - 1];
      n + 1
  }

  type Variables = map<string, U256>

  /** The variable name a template stands for; none when it holds an empty or unknown inner name. */
  function Expand(template: string, mark: string, variables: Variables): Option<string>
    requires IsMark(mark)
    decreases |template|
  {
    var start := Find(template, mark);
    if start.None? then Some(template)
    else
      var after := template[start.value + |mark|..];
      var end := NameEnd(after);
      if end == 0 || after[..end] !in variables then None
      else
        Behind(template[..start.value], Decimal(variables[after[..end]]), Expand(after[end..], mark, variables))
  }

  function Behind(text: string, value: string, rest: Option<string>): Option<string> {
    if rest.None? then None else Some(text + value + rest.value)
  }

  // ---------------------------------------------------------------- templates by their parts

  /** A template: pieces of plain text each followed by an inner name, and text at the end. */
  datatype Piece = Piece(text: string, name: string)
  datatype Template = Template(pieces: seq<Piece>, tail: string)

  function Write(t: Template, mark: string): string
    decreases |t.pieces|
  {
    if t.pieces == [] then t.tail
    else Glue(t.pieces[0].text, mark, t.pieces[0].name, Write(Rest(t), mark))
  }

  function Glue(text: string, mark: string, name: string, rest: string): string {
    text + mark + name + rest
  }

  function Rest(t: Template): Template
    requires t.pieces != []
  {
    Template(t.pieces[1..], t.tail)
  }

  // The text that comes first.
  function Head(t: Template): string {
    if t.pieces == [] then t.tail else t.pieces[0].text
  }

  predicate AllAlphanumeric(name: string) {
    forall c <- name :: IsAlphanumeric(c)
  }

  predicate StartsNoName(s: string) {
    s == "" || !IsAlphanumeric(s[0])
  }

  /** No text holds the mark, and no name could be longer. */
  predicate Proper(t: Template, mark: string)
    decreases |t.pieces|
  {
    && Find(Head(t), mark).None?
    && (t.pieces != [] ==>
          AllAlphanumeric(t.pieces[0].name) && StartsNoName(Head(Rest(t))) && Proper(Rest(t), mark))
  }

  /** The template with every name replaced by its value. */
  function Substitute(t: Template, variables: Variables): Option<string>
    decreases |t.pieces|
  {
    if t.pieces == [] then Some(t.tail)
    else
      var Piece(text, name) := t.pieces[0];
      if name == "" || name !in variables then None
      else Behind(text, Decimal(variables[name]), Substitute(Rest(t), variables))
  }

  // A mark cannot begin inside a text and end behind it.
  lemma NoOverlap(text: string, rest: string, mark: string)
    requires IsMark(mark) && text != "" && !StartsWith(text, mark) && StartsWith(rest, mark)
    ensures !StartsWith(text + rest, mark)
  {
    var s := text + rest;
    if |text| < |mark| {
      assert s[|text|] == rest[..|mark|][0] == mark[0];
      assert s[..|mark|][|text|] == mark[0] && mark[|text|] != mark[0];
    } else {
      assert text[..|mark|] == s[..|mark|];
    }
  }

  lemma {:induction false} FindAfterText(text: string, rest: string, mark: string)
    requires IsMark(mark) && Find(text, mark).None? && StartsWith(rest, mark)
    ensures Find(text + rest, mark) == Some(|text|)
  {
    if text == "" {
      assert text + rest == rest;
    } else {
      NoOverlap(text, rest, mark);
      FindAfterText(text[1..], rest, mark);
      assert (text + rest)[1..] == text[1..] + rest;
    }
  }

  lemma {:induction false} NameEndOf(name: string, rest: string)
    requires AllAlphanumeric(name) && StartsNoName(rest)
    ensures NameEnd(name + rest) == |name|
  {
    if name == "" {
      assert name + rest == rest;
    } else {
      assert name[0] in name;
      assert (name + rest)[1..] == name[1..] + rest;
      NameEndOf(name[1..], rest);
    }
  }

  lemma Cuts(text: string, mark: string, name: string, rest: string)
    ensures var s := Glue(text, mark, name, rest);
      && s == text + (mark + (name + rest))
      && s[..|text|] == text && s[|text| + |mark|..] == name + rest
      && StartsWith(mark + (name + rest), mark)
      && (name + rest)[..|name|] == name && (name + rest)[|name|..] == rest
  {
  }

  lemma MarkFound(text: string, name: string, rest: string, mark: string)
    requires IsMark(mark) && Find(text, mark).None?
    ensures Find(Glue(text, mark, name, rest), mark) == Some(|text|)
  {
    Cuts(text, mark, name, rest);
    FindAfterText(text, mark + (name + rest), mark);
  }

  lemma ExpandFound(s: string, start: nat, name: string, rest: string, mark: string, variables: Variables)
    requires IsMark(mark) && Find(s, mark) == Some(start)
    requires s[start + |mark|..] == name + rest && NameEnd(name + rest) == |name|
    ensures Expand(s, mark, variables)
         == if name == "" || name !in variables then None
            else Behind(s[..start], Decimal(variables[name]), Expand(rest, mark, variables))
  {
    assert (name + rest)[..|name|] == name && (name + rest)[|name|..] == rest;
  }

  // What the expansion does with a first piece.
  lemma ExpandPiece(s: string, text: string, name: string, rest: string, mark: string, variables: Variables)
    requires IsMark(mark) && Find(text, mark).None? && AllAlphanumeric(name) && StartsNoName(rest)
    requires s == Glue(text, mark, name, rest)
    ensures Expand(s, mark, variables)
         == if name == "" || name !in variables then None
            else Behind(text, Decimal(variables[name]), Expand(rest, mark, variables))
  {
    MarkFound(text, name, rest, mark);
    NameEndOf(name, rest);
    Cuts(text, mark, name, rest);
    ExpandFound(s, |text|, name, rest, mark, variables);
  }

  lemma WriteStartsNoName(t: Template, mark: string)
    requires IsMark(mark) && StartsNoName(Head(t))
    ensures StartsNoName(Write(t, mark))
  {
    if t.pieces != [] {
      Cuts(t.pieces[0].text, mark, t.pieces[0].name, Write(Rest(t), mark));
    }
  }

  /** Expanding what a template is written as replaces its names, and nothing that the values put
      in. */
  lemma {:induction false} ExpandSubstitutes(t: Template, mark: string, variables: Variables)
    requires IsMark(mark) && Proper(t, mark)
    ensures Expand(Write(t, mark), mark, variables) == Substitute(t, variables)
    decreases |t.pieces|
  {
    if t.pieces != [] {
      WriteStartsNoName(Rest(t), mark);
      ExpandPiece(Write(t, mark), t.pieces[0].text, t.pieces[0].name, Write(Rest(t), mark), mark, variables);
      ExpandSubstitutes(Rest(t), mark, variables);
    }
  }

  // ---------------------------------------------------------------- every text is a template

  function InFront(piece: Piece, t: Template): Template {
    Template([piece] + t.pieces, t.tail)
  }

  lemma {:induction false} FindIsFirst(s: string, mark: string)
    requires mark != "" && Find(s, mark).Some?
    ensures Find(s[..Find(s, mark).value], mark).None?
  {
    var n := Find(s, mark).value;
    if n > 0 {
      var front := s[..n];
      assert Find(s[1..], mark) == Some(n - 1);
      FindIsFirst(s[1..], mark);
      assert front[1..] == s[1..][..n - 1];
      StartOfStart(s, n, mark);
      assert !StartsWith(front, mark);
    }
  }

  lemma StartOfStart(s: string, n: nat, mark: string)
    requires n <= |s|
    ensures StartsWith(s[..n], mark) ==> StartsWith(s, mark)
  {
    if StartsWith(s[..n], mark) {
      assert s[..|mark|] == s[..n][..|mark|];
    }
  }

  lemma AroundOccurrence(s: string, mark: string, start: nat, end: nat)
    requires start + |mark| + end <= |s| && StartsWith(s[start..], mark)
    ensures s == Glue(s[..start], mark, s[start + |mark|..][..end], s[start + |mark|..][end..])
  {
    var behind := start + |mark|;
    Cut(s, start, behind, behind + end);
    assert s[start..behind] == s[start..][..|mark|];
    assert s[behind..][..end] == s[behind..behind + end];
    assert s[behind..][end..] == s[behind + end..];
  }

  lemma Cut(s: string, a: nat, b: nat, c: nat)
    requires a <= b <= c <= |s|
    ensures s == s[..a] + s[a..b] + s[b..c] + s[c..]
  {
  }

  lemma NameAt(s: string)
    ensures var end := NameEnd(s); AllAlphanumeric(s[..end]) && StartsNoName(s[end..])
  {
  }

  /** A text around its first inner name. */
  predicate Around(s: string, text: string, name: string, rest: string, mark: string) {
    && s == Glue(text, mark, name, rest) && |rest| < |s|
    && Find(text, mark).None? && AllAlphanumeric(name) && StartsNoName(rest)
  }

  // The first inner name, and the texts before and behind it.
  method NextName(s: string, mark: string) returns (found: bool, text: string, name: string, rest: string)
    requires IsMark(mark)
    ensures found <==> Find(s, mark).Some?
    ensures found ==> Around(s, text, name, rest, mark)
  {
    var start := Find(s, mark);
    if start.None? {
      return false, "", "", "";
    }
    found, text := true, s[..start.value];
    var after := s[start.value + |mark|..];
    var end := NameEnd(after);
    name, rest := after[..end], after[end..];
    FirstNameAround(s, start.value, text, after, end, name, rest, mark);
  }

  lemma FirstNameAround(s: string, start: nat, text: string, after: string, end: nat, name: string, rest: string, mark: string)
    requires IsMark(mark) && Find(s, mark) == Some(start)
    requires text == s[..start] && after == s[start + |mark|..]
    requires end == NameEnd(after) && name == after[..end] && rest == after[end..]
    ensures Around(s, text, name, rest, mark)
  {
    FindIsFirst(s, mark);
    NameAt(after);
    AroundOccurrence(s, mark, start, end);
  }

  lemma FirstName(s: string, mark: string) returns (text: string, name: string, rest: string)
    requires IsMark(mark) && Find(s, mark).Some?
    ensures Around(s, text, name, rest, mark)
  {
    var start := Find(s, mark).value;
    var after := s[start + |mark|..];
    var end := NameEnd(after);
    text, name, rest := s[..start], after[..end], after[end..];
    FirstNameAround(s, start, text, after, end, name, rest, mark);
  }

  // A template whose text starts with no name has a head that does.
  lemma HeadStartsNoName(t: Template, mark: string)
    requires StartsNoName(Write(t, mark))
    ensures StartsNoName(Head(t))
  {
    if t.pieces != [] {
      Cuts(t.pieces[0].text, mark, t.pieces[0].name, Write(Rest(t), mark));
    }
  }

  lemma PieceInFront(piece: Piece, t: Template, mark: string)
    requires Find(piece.text, mark).None? && AllAlphanumeric(piece.name)
    requires Proper(t, mark) && StartsNoName(Write(t, mark))
    ensures Proper(InFront(piece, t), mark)
    ensures Write(InFront(piece, t), mark) == Glue(piece.text, mark, piece.name, Write(t, mark))
  {
    HeadStartsNoName(t, mark);
    assert Rest(InFront(piece, t)) == t;
  }

  /** Every text is that of a proper template. */
  lemma {:induction false} EveryTextIsATemplate(s: string, mark: string) returns (t: Template)
    requires IsMark(mark)
    ensures Proper(t, mark) && Write(t, mark) == s
    decreases |s|
  {
    if Find(s, mark).None? {
      t := Template([], s);
    } else {
      var text, name, rest := FirstName(s, mark);
      var behind := EveryTextIsATemplate(rest, mark);
      PieceInFront(Piece(text, name), behind, mark);
      t := InFront(Piece(text, name), behind);
    }
  }

  // ---------------------------------------------------------------- the loop

  lemma BehindMore(result: string, text: string, value: string, rest: Option<string>)
    ensures Behind(result, "", Behind(text, value, rest)) == Behind(result + text + value, "", rest)
  {
    if rest.Some? {
      assert result + "" + (text + value + rest.value) == result + text + value + "" + rest.value;
    }
  }

  lemma BehindNothing(rest: Option<string>)
    ensures Behind("", "", rest) == rest
  {
    assert rest.Some? ==> "" + "" + rest.value == rest.value;
  }

  lemma BehindText(result: string, text: string)
    ensures Behind(result, "", Some(text)) == Some(result + text)
  {
    assert result + "" + text == result + text;
  }

  lemma PrefixIsMark()
    ensures IsMark(Prefix)
  {
  }

  /** One inner name behind plain text and in front of text that does not continue it. */
  lemma OneInnerName(text: string, name: string, tail: string, variables: Variables)
    requires Find(text, Prefix).None? && Find(tail, Prefix).None?
    requires AllAlphanumeric(name) && StartsNoName(tail)
    ensures Expand(text + "$VARIABLE:" + name + tail, Prefix, variables)
         == if name != "" && name in variables then Some(text + Decimal(variables[name]) + tail) else None
  {
    var t := Template([Piece(text, name)], tail);
    PrefixIsMark();
    assert Rest(t) == Template([], tail);
    ExpandSubstitutes(t, Prefix, variables);
    assert Write(Rest(t), Prefix) == tail;
    assert Write(t, Prefix) == text + "$VARIABLE:" + name + tail;
    assert Substitute(Rest(t), variables) == Some(tail);
  }

  /** The value of a template is that of its pieces, whatever they are. */
  method ResolveVariableNameTemplate(template: string, variables: Variables) returns (name: Option<string>)
    ensures exists t :: Proper(t, Prefix) && Write(t, Prefix) == template && name == Substitute(t, variables)
  {
    PrefixIsMark();
    ghost var t := EveryTextIsATemplate(template, Prefix);
    ExpandSubstitutes(t, Prefix, variables);
    name := ExpandTemplate(template, Prefix, variables);
  }

  method ExpandTemplate(template: string, mark: string, variables: Variables) returns (name: Option<string>)
    requires IsMark(mark)
    ensures name == Expand(template, mark, variables)
  {
    var result := "";
    var remaining := template;
    BehindNothing(Expand(template, mark, variables));
    var found, text, inner, rest := NextName(remaining, mark);
    while found
      invariant found <==> Find(remaining, mark).Some?
      invariant found ==> Around(remaining, text, inner, rest, mark)
      invariant Behind(result, "", Expand(remaining, mark, variables)) == Expand(template, mark, variables)
      decreases |remaining|
    {
      ExpandPiece(remaining, text, inner, rest, mark, variables);
      if inner == "" || inner !in variables {
        return None;
      }
      BehindMore(result, text, Decimal(variables[inner]), Expand(rest, mark, variables));
      result := result + text + Decimal(variables[inner]);
      remaining := rest;
      found, text, inner, rest := NextName(remaining, mark);
    }
    BehindText(result, remaining);
    name := Some(result + remaining);
  }
}
