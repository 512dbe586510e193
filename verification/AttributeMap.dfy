/** Building the syntax tree while walking the parse tree, with one flat map keyed by where each node starts: a node
    shares its key with its leftmost descendants and overwrites what they left there. */
module AttributeMap {

  /** Line and column; as a map key the two numbers are kept apart. */
  type Pos = (int, int)

  datatype Kind = INTLIT | TRUE | FALSE | NIL | NEW | ID | LPAREN | MINUS | NOT | ELSE | STRINGLIT | OPERATOR | OTHER

  datatype Word = Word(kind: Kind, text: string)

  datatype Token = Token(word: Word, at: Pos)

  /** The grammar rules with a listener; operators, which have none, count as tokens. */
  datatype Rule =
    | Factor | SelectorTerm | UnaryTerm | Term | SimpleTerm | RelationTerm | EqualTerm | BoolTerm | Expression
    | LValue | Invocation | Return | Loop | Conditional | Print | Assignment | Read | Delete | Block | Statement
    | Function | Declaration | Type | Decl | ReturnType | TypeDeclaration | Program

  datatype Tree = Leaf(token: Token) | Node(rule: Rule, children: seq<Tree>)

  /** What the listeners build; P is what a node says of its position. */
  datatype Form<P> =
    | IntLit(text: string) | BoolLit(truth: bool) | Nil | NewOf(id: string) | Variable(id: string)
    | Invoke(id: string, args: seq<Ast<P>>) | Paren(inner: Ast<P>) | Field(base: Ast<P>, ids: seq<string>)
    | Unary(op: Kind, operand: Ast<P>) | Binary(first: Ast<P>, rest: seq<Ast<P>>, ops: seq<string>)
    | LVal(ids: seq<string>) | ReturnOf(value: seq<Ast<P>>) | LoopOf(cond: Ast<P>, body: Ast<P>)
    | If(cond: Ast<P>, blocks: seq<Ast<P>>) | PrintOf(text: string, exprs: seq<Ast<P>>)
    | Assign(target: Ast<P>, value: seq<Ast<P>>) | ReadOf(target: Ast<P>) | DeleteOf(value: seq<Ast<P>>)
    | BlockOf(stms: seq<Ast<P>>) | TypeOf(name: string) | DeclOf(id: string, ty: Ast<P>)
    | Declare(ids: seq<string>, ty: Ast<P>) | Returns(ty: Ast<P>)
    | Func(id: string, params: seq<Ast<P>>, ret: seq<Ast<P>>, declarations: seq<Ast<P>>, stms: seq<Ast<P>>)
    | Struct(id: string, fields: seq<Ast<P>>)
    | Prog(types: seq<Ast<P>>, declarations: seq<Ast<P>>, functions: seq<Ast<P>>)
    | NoForm

  datatype Ast<P> = Ast(at: P, form: Form<P>)

  // ----- Parse trees -----

  function Tokens(t: Tree): seq<Pos>
    decreases t, 0
  {
    match t
    case Leaf(k) => [k.at]
    case Node(_, cs) => AllTokens(cs)
  }

  function AllTokens(ts: seq<Tree>): seq<Pos>
    decreases ts, 0
  {
    if ts == [] then [] else AllTokens(ts[..|ts| - 1]) + Tokens(ts[|ts| - 1])
  }

  /** Every node covers at least one token. */
  predicate Covers(t: Tree)
    decreases t, 0
  {
    t.Leaf? || (t.children != [] && forall c <- t.children :: Covers(c))
  }

  /** Where the first token is. */
  function Start(t: Tree): Pos
    requires Covers(t)
    decreases t
  {
    match t
    case Leaf(k) => k.at
    case Node(_, cs) => Start(cs[0])
  }

  predicate Before(p: Pos, q: Pos) { p.0 < q.0 || (p.0 == q.0 && p.1 < q.1) }

  /** The tokens come in the order of the text. */
  predicate InTextOrder(t: Tree) {
    forall i, j :: 0 <= i < j < |Tokens(t)| ==> Before(Tokens(t)[i], Tokens(t)[j])
  }

  // ----- What a listener computes -----

  function WordsOf(children: seq<Tree>): seq<Word> {
    if children == [] then []
    else
      var last := children[|children| - 1];
      WordsOf(children[..|children| - 1]) + if last.Leaf? then [last.token.word] else []
  }

  function Texts(words: seq<Word>, kind: Kind): seq<string> {
    if words == [] then []
    else
      var last := words[|words| - 1];
      Texts(words[..|words| - 1], kind) + if last.kind == kind then [last.text] else []
  }

  predicate Has(words: seq<Word>, kind: Kind) { Texts(words, kind) != [] }

  function TextOf(words: seq<Word>, kind: Kind): string {
    var texts := Texts(words, kind);
    if texts == [] then "" else texts[0]
  }

  /** The values of the children under a rule, in order. */
  function Under<P>(parts: seq<(Rule, Ast<P>)>, rule: Rule): seq<Ast<P>> {
    if parts == [] then []
    else
      var last := parts[|parts| - 1];
      Under(parts[..|parts| - 1], rule) + if last.0 == rule then [last.1] else []
  }

  function Values<P>(parts: seq<(Rule, Ast<P>)>): seq<Ast<P>> {
    if parts == [] then [] else Values(parts[..|parts| - 1]) + [parts[|parts| - 1].1]
  }

  /** The value of the only child under a rule. */
  function OneUnder<P>(at: P, parts: seq<(Rule, Ast<P>)>, rule: Rule): Ast<P> {
    var under := Under(parts, rule);
    if under == [] then Ast(at, NoForm) else under[0]
  }

  function FirstValue<P>(at: P, parts: seq<(Rule, Ast<P>)>): Ast<P> {
    if parts == [] then Ast(at, NoForm) else parts[0].1
  }

  function ExitFactor<P>(at: P, words: seq<Word>, parts: seq<(Rule, Ast<P>)>): Form<P> {
    if Has(words, INTLIT) then IntLit(TextOf(words, INTLIT))
    else if Has(words, TRUE) then BoolLit(true)
    else if Has(words, FALSE) then BoolLit(false)
    else if Has(words, NIL) then Nil
    else if Has(words, NEW) then NewOf(TextOf(words, ID))
    else if Has(words, ID) then
      if Has(words, LPAREN) then Invoke(TextOf(words, ID), Under(parts, Expression)) else Variable(TextOf(words, ID))
    else if Has(words, LPAREN) then Paren(OneUnder(at, parts, Expression))
    else NoForm
  }

  function ExitBinary<P>(words: seq<Word>, parts: seq<(Rule, Ast<P>)>): Form<P> {
    var values := Values(parts);
    if values == [] then NoForm else Binary(values[0], values[1..], Texts(words, OPERATOR))
  }

  /** The listener of each rule, given the position of the node, its words and what the map holds for its children. */
  function Exit<P>(rule: Rule, at: P, words: seq<Word>, parts: seq<(Rule, Ast<P>)>): Ast<P> {
    match rule
    case Factor => Ast(at, ExitFactor(at, words, parts))
    case SelectorTerm => Ast(at, Field(OneUnder(at, parts, Factor), Texts(words, ID)))
    case UnaryTerm =>
      if Has(words, MINUS) then Ast(at, Unary(MINUS, OneUnder(at, parts, SelectorTerm)))
      else if Has(words, NOT) then Ast(at, Unary(NOT, OneUnder(at, parts, SelectorTerm)))
      else OneUnder(at, parts, SelectorTerm)
    case Term => Ast(at, ExitBinary(words, parts))
    case SimpleTerm => Ast(at, ExitBinary(words, parts))
    case RelationTerm => Ast(at, ExitBinary(words, parts))
    case EqualTerm => Ast(at, ExitBinary(words, parts))
    case BoolTerm => Ast(at, ExitBinary(words, parts))
    case Expression => Ast(at, ExitBinary(words, parts))
    case LValue => Ast(at, LVal(Texts(words, ID)))
    case Invocation => Ast(at, Invoke(TextOf(words, ID), Under(parts, Expression)))
    case Return => Ast(at, ReturnOf(Under(parts, Expression)))
    case Loop => Ast(at, LoopOf(OneUnder(at, parts, Expression), OneUnder(at, parts, Block)))
    case Conditional => Ast(at, If(OneUnder(at, parts, Expression), Under(parts, Block)))
    case Print => Ast(at, PrintOf(TextOf(words, STRINGLIT), Under(parts, Expression)))
    case Assignment => Ast(at, Assign(OneUnder(at, parts, LValue), Under(parts, Expression)))
    case Read => Ast(at, ReadOf(OneUnder(at, parts, LValue)))
    case Delete => Ast(at, DeleteOf(Under(parts, Expression)))
    case Block => Ast(at, BlockOf(Under(parts, Statement)))
    case Statement => FirstValue(at, parts)
    case Function =>
      Ast(at, Func(TextOf(words, ID), Under(parts, Decl), Under(parts, ReturnType), Under(parts, Declaration),
                   Under(parts, Statement)))
    case Declaration => Ast(at, Declare(Texts(words, ID), OneUnder(at, parts, Type)))
    case Type => Ast(at, TypeOf(if words == [] then "" else words[|words| - 1].text))
    case Decl => Ast(at, DeclOf(TextOf(words, ID), OneUnder(at, parts, Type)))
    case ReturnType => Ast(at, Returns(OneUnder(at, parts, Type)))
    case TypeDeclaration => Ast(at, Struct(TextOf(words, ID), Under(parts, Decl)))
    case Program => Ast(at, Prog(Under(parts, TypeDeclaration), Under(parts, Declaration), Under(parts, Function)))
  }

  // ----- The fold -----

  /** The bottom-up value of a node: its listener applied to the values of its children. */
  function Fold(t: Tree): Ast<Pos>
    requires Covers(t) && t.Node?
    decreases t, 1
  {
    Exit(t.rule, Start(t), WordsOf(t.children), Parts(t.children))
  }

  function Parts(children: seq<Tree>): seq<(Rule, Ast<Pos>)>
    requires forall c <- children :: Covers(c)
    decreases children, 0
  {
    if children == [] then []
    else
      var last := children[|children| - 1];
      Parts(children[..|children| - 1]) + if last.Node? then [(last.rule, Fold(last))] else []
  }

  // ----- Spans -----

  lemma {:induction false} StartIsToken(t: Tree)
    requires Covers(t)
    ensures Start(t) in Tokens(t)
    decreases t, 1
  {
    if t.Node? {
      StartIsToken(t.children[0]);
      ChildTokens(t.children, 0);
    }
  }

  lemma {:induction false} ChildTokens(ts: seq<Tree>, i: nat)
    requires i < |ts|
    ensures forall p <- Tokens(ts[i]) :: p in AllTokens(ts)
    decreases |ts|
  {
    if i < |ts| - 1 { ChildTokens(ts[..|ts| - 1], i); }
  }

  predicate OrderedTokens(s: seq<Pos>) {
    forall i, j :: 0 <= i < j < |s| ==> Before(s[i], s[j])
  }

  lemma OrderedParts(a: seq<Pos>, b: seq<Pos>)
    requires OrderedTokens(a + b)
    ensures OrderedTokens(a) && OrderedTokens(b) && forall p <- a, q <- b :: Before(p, q)
  {
    var all := a + b;
    assert forall i :: 0 <= i < |a| ==> all[i] == a[i];
    assert forall i :: 0 <= i < |b| ==> all[|a| + i] == b[i];
  }

  /** In text order, earlier siblings cover earlier tokens. */
  lemma {:induction false} SiblingsApart(ts: seq<Tree>, i: nat, j: nat)
    requires OrderedTokens(AllTokens(ts)) && i < j < |ts|
    ensures forall p <- Tokens(ts[i]), q <- Tokens(ts[j]) :: Before(p, q)
    decreases |ts|
  {
    var front := ts[..|ts| - 1];
    OrderedParts(AllTokens(front), Tokens(ts[|ts| - 1]));
    if j == |ts| - 1 { ChildTokens(front, i); } else { SiblingsApart(front, i, j); }
  }

  lemma {:induction false} ChildOrdered(ts: seq<Tree>, i: nat)
    requires OrderedTokens(AllTokens(ts)) && i < |ts|
    ensures OrderedTokens(Tokens(ts[i]))
    decreases |ts|
  {
    var front := ts[..|ts| - 1];
    OrderedParts(AllTokens(front), Tokens(ts[|ts| - 1]));
    if i < |ts| - 1 { ChildOrdered(front, i); }
  }

  // ----- The walk -----

  class Parser {
    var nodes: map<Pos, Ast<Pos>>

    constructor ()
      ensures nodes == map[]
    {
      nodes := map[];
    }

    function Lookup(p: Pos): Ast<Pos>
      reads this
    {
      if p in nodes then nodes[p] else Ast(p, NoForm)
    }

    /** What the map holds for the children, read one by one. */
    method ReadParts(children: seq<Tree>) returns (parts: seq<(Rule, Ast<Pos>)>)
      requires forall c <- children :: Covers(c)
      requires forall i :: 0 <= i < |children| && children[i].Node? ==> Lookup(Start(children[i])) == Fold(children[i])
      ensures parts == Parts(children)
    {
      parts := [];
      for i := 0 to |children|
        invariant parts == Parts(children[..i])
      {
        var c := children[i];
        assert children[..i + 1][..i] == children[..i] && c in children;
        if c.Node? { parts := parts + [(c.rule, Lookup(Start(c)))]; }
      }
      assert children[..|children|] == children;
    }

    /** Walks the children, then runs the node's listener. Afterwards the map holds the value of the node under its
        start, and outside the tokens it covers nothing has changed. */
    method Walk(t: Tree)
      requires Covers(t) && InTextOrder(t)
      modifies this
      ensures t.Node? ==> Start(t) in nodes && nodes[Start(t)] == Fold(t)
      ensures forall p :: p !in Tokens(t) ==>
        (p in nodes <==> p in old(nodes)) && (p in nodes ==> nodes[p] == old(nodes)[p])
      decreases t
    {
      if t.Node? {
        hide Fold, Exit, AllTokens, Tokens, Start, InTextOrder, OrderedTokens, Covers;
        var cs := t.children;
        TokensAreChildren(t);
        ChildrenCovered(t);
        for i := 0 to |cs|
          invariant forall j :: 0 <= j < i && cs[j].Node? ==>
              Start(cs[j]) in nodes && nodes[Start(cs[j])] == Fold(cs[j])
          invariant forall p :: p !in Tokens(t) ==>
            (p in nodes <==> p in old(nodes)) && (p in nodes ==> nodes[p] == old(nodes)[p])
        {
          ChildWalkable(t, i);
          Walk(cs[i]);
          forall j | 0 <= j < i && cs[j].Node? ensures Start(cs[j]) in nodes && nodes[Start(cs[j])] == Fold(cs[j]) {
            StartNotIn(cs, j, i);
          }
        }
        var parts := ReadParts(cs);
        StartIsToken(t);
        FoldIs(t, parts);
        nodes := nodes[Start(t) := Exit(t.rule, Start(t), WordsOf(cs), parts)];
      }
    }

    /** Parses: the value of the whole tree is found under its start. */
    method Parse(t: Tree) returns (program: Ast<Pos>)
      requires Covers(t) && InTextOrder(t) && t.Node?
      modifies this
      ensures program == Fold(t)
    {
      Walk(t);
      program := nodes[Start(t)];
    }
  }

  lemma FoldIs(t: Tree, parts: seq<(Rule, Ast<Pos>)>)
    requires Covers(t) && t.Node? && parts == Parts(t.children)
    ensures Exit(t.rule, Start(t), WordsOf(t.children), parts) == Fold(t)
  {
  }

  lemma TokensAreChildren(t: Tree)
    requires t.Node? && InTextOrder(t)
    ensures Tokens(t) == AllTokens(t.children) && OrderedTokens(AllTokens(t.children))
  {
  }

  lemma ChildrenCovered(t: Tree)
    requires Covers(t) && t.Node?
    ensures forall i :: 0 <= i < |t.children| ==> Covers(t.children[i])
    ensures forall c <- t.children :: Covers(c)
  {
  }

  lemma ChildWalkable(t: Tree, i: nat)
    requires t.Node? && InTextOrder(t) && i < |t.children|
    ensures InTextOrder(t.children[i]) && forall p <- Tokens(t.children[i]) :: p in Tokens(t)
  {
    TokensAreChildren(t);
    ChildOrdered(t.children, i);
    ChildTokens(t.children, i);
  }

  lemma StartNotIn(ts: seq<Tree>, i: nat, j: nat)
    requires OrderedTokens(AllTokens(ts)) && i < j < |ts| && Covers(ts[i])
    ensures Start(ts[i]) !in Tokens(ts[j])
  {
    hide Tokens, AllTokens, Start, Covers, OrderedTokens;
    SiblingsApart(ts, i, j);
    StartIsToken(ts[i]);
  }
}
