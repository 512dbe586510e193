/** The grammar, form by form: which parse trees a syntax tree has. Walking any of them builds that syntax tree. */
module Grammar {
  import opened Words
  import opened AttributeMap

  /** A syntax tree without positions. */
  type Phrase = Ast<()>

  /** One symbol on the right-hand side of a production: a word, or a phrase under a rule. */
  datatype Item = Lex(word: Word) | Sub(rule: Rule, phrase: Phrase)

  function Tok(kind: Kind, text: string): Item { Lex(Word(kind, text)) }

  function Key(text: string): Item { Tok(OTHER, text) }

  // ----- Lists -----

  function Subs(rule: Rule, xs: seq<Phrase>): seq<Item> {
    if xs == [] then [] else Subs(rule, xs[..|xs| - 1]) + [Sub(rule, xs[|xs| - 1])]
  }

  /** Each behind a separator. */
  function Preceded(sep: string, rule: Rule, xs: seq<Phrase>): seq<Item> {
    if xs == [] then [] else Preceded(sep, rule, xs[..|xs| - 1]) + [Key(sep), Sub(rule, xs[|xs| - 1])]
  }

  function CommaSeparated(rule: Rule, xs: seq<Phrase>): seq<Item> {
    if xs == [] then [] else [Sub(rule, xs[0])] + Preceded(",", rule, xs[1..])
  }

  /** Each followed by a semicolon. */
  function Terminated(rule: Rule, xs: seq<Phrase>): seq<Item> {
    if xs == [] then [] else Terminated(rule, xs[..|xs| - 1]) + [Sub(rule, xs[|xs| - 1]), Key(";")]
  }

  function Names(sep: string, ids: seq<string>): seq<Item> {
    if ids == [] then [] else Names(sep, ids[..|ids| - 1]) + [Key(sep), Tok(ID, ids[|ids| - 1])]
  }

  /** Operators, each with its right operand. */
  function Operations(rule: Rule, ops: seq<string>, rest: seq<Phrase>): seq<Item>
    requires |ops| == |rest|
  {
    if ops == [] then []
    else
      var n := |ops| - 1;
      Operations(rule, ops[..n], rest[..n]) + [Tok(OPERATOR, ops[n]), Sub(rule, rest[n])]
  }

  // ----- Productions -----

  predicate IsChain(rule: Rule) {
    rule.Term? || rule.SimpleTerm? || rule.RelationTerm? || rule.EqualTerm? || rule.BoolTerm? || rule.Expression?
  }

  /** The rule for the operands of a chain, and the operators in it. */
  function Below(rule: Rule): Rule
    requires IsChain(rule)
  {
    match rule
    case Term => UnaryTerm
    case SimpleTerm => Term
    case RelationTerm => SimpleTerm
    case EqualTerm => RelationTerm
    case BoolTerm => EqualTerm
    case Expression => BoolTerm
  }

  function Operators(rule: Rule): set<string>
    requires IsChain(rule)
  {
    match rule
    case Term => {"*", "/"}
    case SimpleTerm => {"+", "-"}
    case RelationTerm => {">", "<", "<=", ">="}
    case EqualTerm => {"==", "!="}
    case BoolTerm => {"&&"}
    case Expression => {"||"}
  }

  function StatementRule(form: Form<()>): Option<Rule> {
    match form
    case Assign(_, _) => Some(Assignment)
    case PrintOf(_, _) => Some(Print)
    case ReadOf(_) => Some(Read)
    case DeleteOf(_) => Some(Delete)
    case If(_, _) => Some(Conditional)
    case LoopOf(_, _) => Some(Loop)
    case ReturnOf(_) => Some(Return)
    case Invoke(_, _) => Some(Invocation)
    case _ => None
  }

  /** Which forms the grammar has under a rule. */
  predicate Allowed(rule: Rule, form: Form<()>) {
    match rule
    case Factor =>
      form.IntLit? || form.BoolLit? || form.Nil? || form.NewOf? || form.Variable? || form.Invoke? || form.Paren?
    case SelectorTerm => form.Field?
    case UnaryTerm => form.Field? || (form.Unary? && (form.op == MINUS || form.op == NOT))
    case LValue => form.LVal? && form.ids != []
    case Invocation => form.Invoke?
    case Return => form.ReturnOf? && |form.value| <= 1
    case Loop => form.LoopOf?
    case Conditional => form.If? && 1 <= |form.blocks| <= 2
    case Print => form.PrintOf?
    case Assignment => form.Assign? && |form.value| == 1
    case Read => form.ReadOf?
    case Delete => form.DeleteOf? && |form.value| == 1
    case Block => form.BlockOf?
    case Statement => StatementRule(form).Some?
    case Function => form.Func? && |form.ret| <= 1
    case Declaration => form.Declare? && form.ids != []
    case Type => form.TypeOf?
    case Decl => form.DeclOf?
    case ReturnType => form.Returns?
    case TypeDeclaration => form.Struct? && form.fields != []
    case Program => form.Prog?
    case _ => form.Binary? && |form.ops| == |form.rest| && forall op <- form.ops :: op in Operators(rule)
  }

  function FactorProduction(form: Form<()>): seq<Item>
    requires Allowed(Factor, form)
  {
    match form
    case IntLit(text) => [Tok(INTLIT, text)]
    case BoolLit(truth) => [if truth then Tok(TRUE, "true") else Tok(FALSE, "false")]
    case Nil => [Tok(NIL, "nil")]
    case NewOf(id) => [Tok(NEW, "new"), Tok(ID, id)]
    case Variable(id) => [Tok(ID, id)]
    case Invoke(id, args) => [Tok(ID, id), Tok(LPAREN, "(")] + CommaSeparated(Expression, args) + [Key(")")]
    case Paren(inner) => [Tok(LPAREN, "("), Sub(Expression, inner), Key(")")]
  }

  function InvocationProduction(id: string, args: seq<Phrase>): seq<Item> {
    [Tok(ID, id), Tok(LPAREN, "(")] + CommaSeparated(Expression, args) + [Key(")"), Key(";")]
  }

  /** A keyword, a condition in parentheses, and a block. */
  function Guarded(key: string, cond: Phrase, block: Phrase): seq<Item> {
    [Key(key), Tok(LPAREN, "("), Sub(Expression, cond), Key(")")] + [Sub(Block, block)]
  }

  function Otherwise(blocks: seq<Phrase>): seq<Item>
    requires 1 <= |blocks| <= 2
  {
    if |blocks| == 1 then [] else [Tok(ELSE, "else"), Sub(Block, blocks[1])]
  }

  function PrintProduction(text: string, exprs: seq<Phrase>): seq<Item> {
    [Key("printf"), Tok(LPAREN, "("), Tok(STRINGLIT, text)] + Preceded(",", Expression, exprs) + [Key(")"), Key(";")]
  }

  /** A function up to its opening brace. */
  function Header(id: string, params: seq<Phrase>, ret: seq<Phrase>): seq<Item> {
    [Key("func"), Tok(ID, id), Tok(LPAREN, "(")] + CommaSeparated(Decl, params) + [Key(")")]
    + Subs(ReturnType, ret) + [Key("{")]
  }

  function DeclarationProduction(ids: seq<string>, ty: Phrase): seq<Item>
    requires ids != []
  {
    [Key("var"), Tok(ID, ids[0])] + Names(",", ids[1..]) + [Sub(Type, ty), Key(";")]
  }

  function TypeProduction(name: string): seq<Item> {
    if name == "int" then [Key("int")] else if name == "bool" then [Key("bool")] else [Key("*"), Tok(ID, name)]
  }

  function StructProduction(id: string, fields: seq<Phrase>): seq<Item> {
    [Key("type"), Tok(ID, id), Key("struct"), Key("{")] + Terminated(Decl, fields) + [Key("}"), Key(";")]
  }

  function ProgramProduction(types: seq<Phrase>, declarations: seq<Phrase>, functions: seq<Phrase>): seq<Item> {
    Subs(TypeDeclaration, types) + Subs(Declaration, declarations) + Subs(Function, functions) + [Key("<EOF>")]
  }

  /** The right-hand side for a phrase under a rule. */
  function Production(rule: Rule, x: Phrase): seq<Item>
    requires Allowed(rule, x.form)
  {
    var form := x.form;
    match rule
    case Factor => FactorProduction(form)
    case SelectorTerm => [Sub(Factor, form.base)] + Names(".", form.ids)
    case UnaryTerm =>
      if form.Unary? then [Tok(form.op, if form.op == MINUS then "-" else "!"), Sub(SelectorTerm, form.operand)]
      else [Sub(SelectorTerm, x)]
    case LValue => [Tok(ID, form.ids[0])] + Names(".", form.ids[1..])
    case Invocation => InvocationProduction(form.id, form.args)
    case Return => [Key("return")] + Subs(Expression, form.value) + [Key(";")]
    case Loop => Guarded("for", form.cond, form.body)
    case Conditional => Guarded("if", form.cond, form.blocks[0]) + Otherwise(form.blocks)
    case Print => PrintProduction(form.text, form.exprs)
    case Assignment => [Sub(LValue, form.target), Key("="), Sub(Expression, form.value[0]), Key(";")]
    case Read => [Key("scan"), Sub(LValue, form.target), Key(";")]
    case Delete => [Key("delete"), Sub(Expression, form.value[0]), Key(";")]
    case Block => [Key("{")] + Subs(Statement, form.stms) + [Key("}")]
    case Statement => [Sub(StatementRule(form).value, x)]
    case Function =>
      Header(form.id, form.params, form.ret) + Subs(Declaration, form.declarations) + Subs(Statement, form.stms)
      + [Key("}")]
    case Declaration => DeclarationProduction(form.ids, form.ty)
    case Type => TypeProduction(form.name)
    case Decl => [Tok(ID, form.id), Sub(Type, form.ty)]
    case ReturnType => [Sub(Type, form.ty)]
    case TypeDeclaration => StructProduction(form.id, form.fields)
    case Program => ProgramProduction(form.types, form.declarations, form.functions)
    case _ => [Sub(Below(rule), form.first)] + Operations(Below(rule), form.ops, form.rest)
  }

  /** A parse tree of a phrase under a rule: its children are the symbols of the production, in order. */
  predicate IsTreeOf(t: Tree, rule: Rule, x: Phrase)
    decreases t, 0
  {
    && t.Node? && t.rule == rule && Allowed(rule, x.form)
    && var items := Production(rule, x);
       && |t.children| == |items|
       && forall i :: 0 <= i < |items| ==> IsChildOf(t.children[i], items[i])
  }

  predicate IsChildOf(t: Tree, item: Item)
    decreases t, 1
  {
    match item
    case Lex(word) => t.Leaf? && t.token.word == word
    case Sub(rule, x) => IsTreeOf(t, rule, x)
  }

  // ----- What a listener sees of a production -----

  function WordsIn(items: seq<Item>): seq<Word> {
    if items == [] then []
    else
      var last := items[|items| - 1];
      WordsIn(items[..|items| - 1]) + if last.Lex? then [last.word] else []
  }

  function PartsIn(items: seq<Item>): seq<(Rule, Phrase)> {
    if items == [] then []
    else
      var last := items[|items| - 1];
      PartsIn(items[..|items| - 1]) + if last.Sub? then [(last.rule, last.phrase)] else []
  }

  function TextsIn(items: seq<Item>, kind: Kind): seq<string> { Texts(WordsIn(items), kind) }
  function UnderIn(items: seq<Item>, rule: Rule): seq<Phrase> { Under(PartsIn(items), rule) }
  function ValuesIn(items: seq<Item>): seq<Phrase> { Values(PartsIn(items)) }

  lemma {:induction false} TextsAppend(a: seq<Word>, b: seq<Word>, kind: Kind)
    ensures Texts(a + b, kind) == Texts(a, kind) + Texts(b, kind)
    decreases |b|
  {
    if b == [] {
      assert a + b == a;
    } else {
      var n := |b| - 1;
      assert (a + b)[..|a + b| - 1] == a + b[..n] && (a + b)[|a + b| - 1] == b[n];
      TextsAppend(a, b[..n], kind);
    }
  }

  lemma {:induction false} UnderAppend(a: seq<(Rule, Phrase)>, b: seq<(Rule, Phrase)>, rule: Rule)
    ensures Under(a + b, rule) == Under(a, rule) + Under(b, rule)
    decreases |b|
  {
    if b == [] {
      assert a + b == a;
    } else {
      var n := |b| - 1;
      assert (a + b)[..|a + b| - 1] == a + b[..n] && (a + b)[|a + b| - 1] == b[n];
      UnderAppend(a, b[..n], rule);
    }
  }

  lemma {:induction false} ValuesAppend(a: seq<(Rule, Phrase)>, b: seq<(Rule, Phrase)>)
    ensures Values(a + b) == Values(a) + Values(b)
    decreases |b|
  {
    if b == [] {
      assert a + b == a;
    } else {
      var n := |b| - 1;
      assert (a + b)[..|a + b| - 1] == a + b[..n] && (a + b)[|a + b| - 1] == b[n];
      ValuesAppend(a, b[..n]);
    }
  }

  lemma {:induction false} ItemsAppend(a: seq<Item>, b: seq<Item>)
    ensures WordsIn(a + b) == WordsIn(a) + WordsIn(b) && PartsIn(a + b) == PartsIn(a) + PartsIn(b)
    decreases |b|
  {
    if b == [] {
      assert a + b == a;
    } else {
      var n := |b| - 1;
      assert (a + b)[..|a + b| - 1] == a + b[..n] && (a + b)[|a + b| - 1] == b[n];
      ItemsAppend(a, b[..n]);
    }
  }

  /** Concatenation, with the empty cases apart. */
  function Cat<T>(a: seq<T>, b: seq<T>): (c: seq<T>)
    ensures c == a + b
  {
    if a == [] then b else if b == [] then a else a + b
  }

  lemma Join(a: seq<Item>, b: seq<Item>)
    ensures forall kind :: TextsIn(a + b, kind) == Cat(TextsIn(a, kind), TextsIn(b, kind))
    ensures forall rule :: UnderIn(a + b, rule) == Cat(UnderIn(a, rule), UnderIn(b, rule))
    ensures ValuesIn(a + b) == Cat(ValuesIn(a), ValuesIn(b))
  {
    hide Texts, Under, Values;
    ItemsAppend(a, b);
    forall kind ensures TextsIn(a + b, kind) == Cat(TextsIn(a, kind), TextsIn(b, kind)) {
      TextsAppend(WordsIn(a), WordsIn(b), kind);
    }
    forall rule ensures UnderIn(a + b, rule) == Cat(UnderIn(a, rule), UnderIn(b, rule)) {
      UnderAppend(PartsIn(a), PartsIn(b), rule);
    }
    ValuesAppend(PartsIn(a), PartsIn(b));
  }

  lemma OneItem(item: Item)
    ensures WordsIn([item]) == if item.Lex? then [item.word] else []
    ensures PartsIn([item]) == if item.Sub? then [(item.rule, item.phrase)] else []
  {
    assert [item][..0] == [];
  }

  lemma OneWord(word: Word, kind: Kind)
    ensures Texts([word], kind) == if word.kind == kind then [word.text] else []
  {
    assert [word][..0] == [];
  }

  lemma OnePart(part: (Rule, Phrase), rule: Rule)
    ensures Under([part], rule) == if part.0 == rule then [part.1] else []
    ensures Values([part]) == [part.1]
  {
    assert [part][..0] == [];
  }

  function Text(item: Item, kind: Kind): seq<string> {
    if item.Lex? && item.word.kind == kind then [item.word.text] else []
  }

  function Part(item: Item, rule: Rule): seq<Phrase> {
    if item.Sub? && item.rule == rule then [item.phrase] else []
  }

  lemma One(item: Item)
    ensures forall kind :: TextsIn([item], kind) == Text(item, kind)
    ensures forall rule :: UnderIn([item], rule) == Part(item, rule)
    ensures ValuesIn([item]) == if item.Sub? then [item.phrase] else []
  {
    hide WordsIn, PartsIn;
    OneItem(item);
    match item
    case Lex(word) =>
      forall kind ensures TextsIn([item], kind) == if word.kind == kind then [word.text] else [] {
        OneWord(word, kind);
      }
    case Sub(r, x) =>
      forall rule ensures UnderIn([item], rule) == if r == rule then [x] else [] { OnePart((r, x), rule); }
      OnePart((r, x), r);
  }

  lemma Two(a: Item, b: Item)
    ensures forall kind :: TextsIn([a, b], kind) == Cat(TextsIn([a], kind), TextsIn([b], kind))
    ensures forall rule :: UnderIn([a, b], rule) == Cat(UnderIn([a], rule), UnderIn([b], rule))
    ensures ValuesIn([a, b]) == Cat(ValuesIn([a]), ValuesIn([b]))
  {
    hide TextsIn, UnderIn, ValuesIn;
    Join([a], [b]);
    assert [a, b] == [a] + [b];
  }

  lemma Three(a: Item, b: Item, c: Item)
    ensures forall kind :: TextsIn([a, b, c], kind) == Cat(TextsIn([a, b], kind), TextsIn([c], kind))
    ensures forall rule :: UnderIn([a, b, c], rule) == Cat(UnderIn([a, b], rule), UnderIn([c], rule))
  {
    hide TextsIn, UnderIn, ValuesIn;
    Join([a, b], [c]);
    assert [a, b, c] == [a, b] + [c];
  }

  lemma Four(a: Item, b: Item, c: Item, d: Item)
    ensures forall kind :: TextsIn([a, b, c, d], kind) == Cat(TextsIn([a, b, c], kind), TextsIn([d], kind))
    ensures forall rule :: UnderIn([a, b, c, d], rule) == Cat(UnderIn([a, b, c], rule), UnderIn([d], rule))
  {
    hide TextsIn, UnderIn, ValuesIn;
    Join([a, b, c], [d]);
    assert [a, b, c, d] == [a, b, c] + [d];
  }

  lemma TwoSeen(a: Item, b: Item)
    ensures forall kind :: TextsIn([a, b], kind) == Cat(Text(a, kind), Text(b, kind))
    ensures forall rule :: UnderIn([a, b], rule) == Cat(Part(a, rule), Part(b, rule))
  {
    hide TextsIn, UnderIn, ValuesIn;
    Two(a, b);
    One(a);
    One(b);
  }

  lemma ThreeSeen(a: Item, b: Item, c: Item)
    ensures forall kind :: TextsIn([a, b, c], kind) == Cat(Cat(Text(a, kind), Text(b, kind)), Text(c, kind))
    ensures forall rule :: UnderIn([a, b, c], rule) == Cat(Cat(Part(a, rule), Part(b, rule)), Part(c, rule))
  {
    hide TextsIn, UnderIn, ValuesIn;
    Three(a, b, c);
    TwoSeen(a, b);
    One(c);
  }

  lemma FourSeen(a: Item, b: Item, c: Item, d: Item)
    ensures forall kind ::
      TextsIn([a, b, c, d], kind) == Cat(Cat(Cat(Text(a, kind), Text(b, kind)), Text(c, kind)), Text(d, kind))
    ensures forall rule ::
      UnderIn([a, b, c, d], rule) == Cat(Cat(Cat(Part(a, rule), Part(b, rule)), Part(c, rule)), Part(d, rule))
  {
    hide TextsIn, UnderIn, ValuesIn;
    Four(a, b, c, d);
    ThreeSeen(a, b, c);
    One(d);
  }

  // ----- What a listener sees of a list -----

  lemma Nothing()
    ensures forall kind :: TextsIn([], kind) == []
    ensures forall rule :: UnderIn([], rule) == []
    ensures ValuesIn([]) == []
  {
  }

  lemma {:induction false} SubsSeen(r: Rule, xs: seq<Phrase>)
    ensures forall kind :: TextsIn(Subs(r, xs), kind) == []
    ensures forall rule :: UnderIn(Subs(r, xs), rule) == if rule == r then xs else []
    ensures ValuesIn(Subs(r, xs)) == xs
    decreases |xs|
  {
    hide TextsIn, UnderIn, ValuesIn;
    Nothing();
    if xs != [] {
      var n := |xs| - 1;
      SubsSeen(r, xs[..n]);
      Join(Subs(r, xs[..n]), [Sub(r, xs[n])]);
      One(Sub(r, xs[n]));
      assert xs[..n] + [xs[n]] == xs;
    }
  }

  lemma {:induction false} PrecededSeen(sep: string, r: Rule, xs: seq<Phrase>)
    ensures forall kind :: kind != OTHER ==> TextsIn(Preceded(sep, r, xs), kind) == []
    ensures forall rule :: UnderIn(Preceded(sep, r, xs), rule) == if rule == r then xs else []
    decreases |xs|
  {
    hide TextsIn, UnderIn, ValuesIn;
    Nothing();
    if xs != [] {
      var n := |xs| - 1;
      PrecededSeen(sep, r, xs[..n]);
      Join(Preceded(sep, r, xs[..n]), [Key(sep), Sub(r, xs[n])]);
      Two(Key(sep), Sub(r, xs[n]));
      One(Key(sep));
      One(Sub(r, xs[n]));
      assert xs[..n] + [xs[n]] == xs;
    }
  }

  lemma CommaSeparatedSeen(r: Rule, xs: seq<Phrase>)
    ensures forall kind :: kind != OTHER ==> TextsIn(CommaSeparated(r, xs), kind) == []
    ensures forall rule :: UnderIn(CommaSeparated(r, xs), rule) == if rule == r then xs else []
  {
    hide TextsIn, UnderIn, ValuesIn;
    Nothing();
    if xs != [] {
      Join([Sub(r, xs[0])], Preceded(",", r, xs[1..]));
      One(Sub(r, xs[0]));
      PrecededSeen(",", r, xs[1..]);
      assert [xs[0]] + xs[1..] == xs;
    }
  }

  lemma {:induction false} TerminatedSeen(r: Rule, xs: seq<Phrase>)
    ensures forall kind :: kind != OTHER ==> TextsIn(Terminated(r, xs), kind) == []
    ensures forall rule :: UnderIn(Terminated(r, xs), rule) == if rule == r then xs else []
    decreases |xs|
  {
    hide TextsIn, UnderIn, ValuesIn;
    Nothing();
    if xs != [] {
      var n := |xs| - 1;
      TerminatedSeen(r, xs[..n]);
      Join(Terminated(r, xs[..n]), [Sub(r, xs[n]), Key(";")]);
      Two(Sub(r, xs[n]), Key(";"));
      One(Key(";"));
      One(Sub(r, xs[n]));
      assert xs[..n] + [xs[n]] == xs;
    }
  }

  lemma {:induction false} NamesSeen(sep: string, ids: seq<string>)
    ensures forall kind :: kind != OTHER ==> TextsIn(Names(sep, ids), kind) == if kind == ID then ids else []
    ensures forall rule :: UnderIn(Names(sep, ids), rule) == []
    decreases |ids|
  {
    hide TextsIn, UnderIn, ValuesIn;
    Nothing();
    if ids != [] {
      var n := |ids| - 1;
      NamesSeen(sep, ids[..n]);
      Join(Names(sep, ids[..n]), [Key(sep), Tok(ID, ids[n])]);
      Two(Key(sep), Tok(ID, ids[n]));
      One(Key(sep));
      One(Tok(ID, ids[n]));
      assert ids[..n] + [ids[n]] == ids;
    }
  }

  lemma {:induction false} OperationsSeen(r: Rule, ops: seq<string>, rest: seq<Phrase>)
    requires |ops| == |rest|
    ensures TextsIn(Operations(r, ops, rest), OPERATOR) == ops
    ensures ValuesIn(Operations(r, ops, rest)) == rest
    decreases |ops|
  {
    hide TextsIn, UnderIn, ValuesIn;
    Nothing();
    if ops != [] {
      var n := |ops| - 1;
      OperationsSeen(r, ops[..n], rest[..n]);
      Join(Operations(r, ops[..n], rest[..n]), [Tok(OPERATOR, ops[n]), Sub(r, rest[n])]);
      Two(Tok(OPERATOR, ops[n]), Sub(r, rest[n]));
      One(Tok(OPERATOR, ops[n]));
      One(Sub(r, rest[n]));
      assert ops[..n] + [ops[n]] == ops && rest[..n] + [rest[n]] == rest;
    }
  }

  // ----- Listeners invert productions -----

  /** The listener of the rule, given what it sees of the production, builds the phrase. */
  ghost predicate Inverts(rule: Rule, x: Phrase)
    requires Allowed(rule, x.form)
  {
    var items := Production(rule, x);
    var built := Exit(rule, (), WordsIn(items), PartsIn(items));
    built.form == x.form
  }

  /** What a factor is recognised by. */
  ghost predicate FactorLooks(items: seq<Item>, form: Form<()>) {
    && TextsIn(items, INTLIT) == (if form.IntLit? then [form.text] else [])
    && TextsIn(items, TRUE) == (if form.BoolLit? && form.truth then ["true"] else [])
    && TextsIn(items, FALSE) == (if form.BoolLit? && !form.truth then ["false"] else [])
    && TextsIn(items, NIL) == (if form.Nil? then ["nil"] else [])
    && TextsIn(items, NEW) == (if form.NewOf? then ["new"] else [])
    && TextsIn(items, ID) == (if form.NewOf? || form.Variable? || form.Invoke? then [form.id] else [])
    && TextsIn(items, LPAREN) == (if form.Invoke? || form.Paren? then ["("] else [])
    && UnderIn(items, Expression) == (if form.Invoke? then form.args else if form.Paren? then [form.inner] else [])
  }

  lemma LiteralLooks(form: Form<()>)
    requires form.IntLit? || form.BoolLit? || form.Nil? || form.Variable?
    ensures FactorLooks(FactorProduction(form), form)
  {
    hide TextsIn, UnderIn, ValuesIn;
    One(FactorProduction(form)[0]);
  }

  lemma NewLooks(form: Form<()>)
    requires form.NewOf?
    ensures FactorLooks(FactorProduction(form), form)
  {
    hide TextsIn, UnderIn, ValuesIn;
    TwoSeen(Tok(NEW, "new"), Tok(ID, form.id));
  }

  lemma ParenLooks(form: Form<()>)
    requires form.Paren?
    ensures FactorLooks(FactorProduction(form), form)
  {
    hide TextsIn, UnderIn, ValuesIn;
    ThreeSeen(Tok(LPAREN, "("), Sub(Expression, form.inner), Key(")"));
  }

  lemma CallSeen(id: string, args: seq<Phrase>)
    ensures var items := [Tok(ID, id), Tok(LPAREN, "(")] + CommaSeparated(Expression, args);
      && (forall kind :: kind != OTHER ==>
            TextsIn(items, kind) == if kind == ID then [id] else if kind == LPAREN then ["("] else [])
      && (forall rule :: UnderIn(items, rule) == if rule == Expression then args else [])
  {
    hide TextsIn, UnderIn, ValuesIn;
    Join([Tok(ID, id), Tok(LPAREN, "(")], CommaSeparated(Expression, args));
    TwoSeen(Tok(ID, id), Tok(LPAREN, "("));
    CommaSeparatedSeen(Expression, args);
  }

  lemma CallLooks(form: Form<()>)
    requires form.Invoke?
    ensures FactorLooks(FactorProduction(form), form)
  {
    hide TextsIn, UnderIn, ValuesIn, CommaSeparated;
    var call := [Tok(ID, form.id), Tok(LPAREN, "(")] + CommaSeparated(Expression, form.args);
    CallSeen(form.id, form.args);
    Join(call, [Key(")")]);
    One(Key(")"));
  }

  lemma FactorInverts(x: Phrase)
    requires Allowed(Factor, x.form)
    ensures Inverts(Factor, x)
  {
    hide Texts, Under, WordsIn, PartsIn, FactorProduction;
    match x.form
    case Invoke(_, _) => CallLooks(x.form);
    case Paren(_) => ParenLooks(x.form);
    case NewOf(_) => NewLooks(x.form);
    case _ => LiteralLooks(x.form);
  }

  lemma InvocationInverts(x: Phrase)
    requires Allowed(Invocation, x.form)
    ensures Inverts(Invocation, x)
  {
    hide Texts, Under, WordsIn, PartsIn, InvocationProduction;
    InvocationSeen(x.form.id, x.form.args);
  }

  lemma InvocationSeen(id: string, args: seq<Phrase>)
    ensures var items := InvocationProduction(id, args);
      TextsIn(items, ID) == [id] && UnderIn(items, Expression) == args
  {
    hide TextsIn, UnderIn, ValuesIn, CommaSeparated;
    CallSeen(id, args);
    Join([Tok(ID, id), Tok(LPAREN, "(")] + CommaSeparated(Expression, args), [Key(")"), Key(";")]);
    TwoSeen(Key(")"), Key(";"));
  }

  lemma SelectorInverts(x: Phrase)
    requires Allowed(SelectorTerm, x.form)
    ensures Inverts(SelectorTerm, x)
  {
    hide Texts, Under, WordsIn, PartsIn, Production;
    SelectorSeen(x);
  }

  lemma SelectorSeen(x: Phrase)
    requires x.form.Field?
    ensures var items := Production(SelectorTerm, x);
      UnderIn(items, Factor) == [x.form.base] && TextsIn(items, ID) == x.form.ids
  {
    hide TextsIn, UnderIn, ValuesIn;
    Join([Sub(Factor, x.form.base)], Names(".", x.form.ids));
    One(Sub(Factor, x.form.base));
    NamesSeen(".", x.form.ids);
  }

  lemma UnaryInverts(x: Phrase)
    requires Allowed(UnaryTerm, x.form)
    ensures Inverts(UnaryTerm, x)
  {
    hide Texts, Under, WordsIn, PartsIn, Production;
    UnarySeen(x);
  }

  lemma UnarySeen(x: Phrase)
    requires Allowed(UnaryTerm, x.form)
    ensures var items := Production(UnaryTerm, x);
      && UnderIn(items, SelectorTerm) == [if x.form.Unary? then x.form.operand else x]
      && TextsIn(items, MINUS) == (if x.form.Unary? && x.form.op == MINUS then ["-"] else [])
      && TextsIn(items, NOT) == (if x.form.Unary? && x.form.op == NOT then ["!"] else [])
  {
    hide TextsIn, UnderIn, ValuesIn;
    var items := Production(UnaryTerm, x);
    if x.form.Unary? { TwoSeen(items[0], items[1]); } else { One(items[0]); }
  }

  lemma ChainInverts(rule: Rule, x: Phrase)
    requires IsChain(rule) && Allowed(rule, x.form)
    ensures Inverts(rule, x)
  {
    hide Texts, Values, WordsIn, PartsIn, Production;
    ChainSeen(rule, x);
  }

  lemma ChainSeen(rule: Rule, x: Phrase)
    requires IsChain(rule) && Allowed(rule, x.form)
    ensures var items := Production(rule, x);
      ValuesIn(items) == [x.form.first] + x.form.rest && TextsIn(items, OPERATOR) == x.form.ops
  {
    hide TextsIn, UnderIn, ValuesIn;
    var first := Sub(Below(rule), x.form.first);
    Join([first], Operations(Below(rule), x.form.ops, x.form.rest));
    One(first);
    OperationsSeen(Below(rule), x.form.ops, x.form.rest);
  }

  lemma LValueInverts(x: Phrase)
    requires Allowed(LValue, x.form)
    ensures Inverts(LValue, x)
  {
    hide Texts, Under, WordsIn, PartsIn, Production;
    LValueSeen(x);
  }

  lemma LValueSeen(x: Phrase)
    requires Allowed(LValue, x.form)
    ensures TextsIn(Production(LValue, x), ID) == x.form.ids
  {
    hide TextsIn, UnderIn, ValuesIn;
    var ids := x.form.ids;
    Join([Tok(ID, ids[0])], Names(".", ids[1..]));
    One(Tok(ID, ids[0]));
    NamesSeen(".", ids[1..]);
    assert [ids[0]] + ids[1..] == ids;
  }

  lemma DeclarationInverts(x: Phrase)
    requires Allowed(Declaration, x.form)
    ensures Inverts(Declaration, x)
  {
    hide Texts, Under, WordsIn, PartsIn, DeclarationProduction;
    DeclarationSeen(x.form.ids, x.form.ty);
  }

  lemma DeclarationSeen(ids: seq<string>, ty: Phrase)
    requires ids != []
    ensures var items := DeclarationProduction(ids, ty); TextsIn(items, ID) == ids && UnderIn(items, Type) == [ty]
  {
    hide TextsIn, UnderIn, ValuesIn;
    var front, back := [Key("var"), Tok(ID, ids[0])], [Sub(Type, ty), Key(";")];
    Join(front + Names(",", ids[1..]), back);
    Join(front, Names(",", ids[1..]));
    TwoSeen(Key("var"), Tok(ID, ids[0]));
    NamesSeen(",", ids[1..]);
    TwoSeen(Sub(Type, ty), Key(";"));
    assert [ids[0]] + ids[1..] == ids;
  }

  /** A list between two words. */
  lemma Enclosed(front: Item, r: Rule, xs: seq<Phrase>, back: Item)
    requires front.Lex? && back.Lex?
    ensures UnderIn([front] + Subs(r, xs) + [back], r) == xs
  {
    hide UnderIn, TextsIn, ValuesIn;
    Join([front] + Subs(r, xs), [back]);
    Join([front], Subs(r, xs));
    One(front);
    One(back);
    SubsSeen(r, xs);
  }

  lemma ReturnInverts(x: Phrase)
    requires Allowed(Return, x.form)
    ensures Inverts(Return, x)
  {
    hide Texts, Under, WordsIn, PartsIn, Subs;
    Enclosed(Key("return"), Expression, x.form.value, Key(";"));
  }

  lemma BlockInverts(x: Phrase)
    requires Allowed(Block, x.form)
    ensures Inverts(Block, x)
  {
    hide Texts, Under, WordsIn, PartsIn, Subs;
    Enclosed(Key("{"), Statement, x.form.stms, Key("}"));
  }

  lemma AssignmentInverts(x: Phrase)
    requires Allowed(Assignment, x.form)
    ensures Inverts(Assignment, x)
  {
    hide Texts, Under, WordsIn, PartsIn;
    FourSeen(Sub(LValue, x.form.target), Key("="), Sub(Expression, x.form.value[0]), Key(";"));
    assert UnderIn(Production(Assignment, x), LValue) == [x.form.target];
    assert UnderIn(Production(Assignment, x), Expression) == x.form.value;
  }

  lemma ReadInverts(x: Phrase)
    requires Allowed(Read, x.form)
    ensures Inverts(Read, x)
  {
    hide Texts, Under, WordsIn, PartsIn;
    ThreeSeen(Key("scan"), Sub(LValue, x.form.target), Key(";"));
    assert UnderIn(Production(Read, x), LValue) == [x.form.target];
  }

  lemma DeleteInverts(x: Phrase)
    requires Allowed(Delete, x.form)
    ensures Inverts(Delete, x)
  {
    hide Texts, Under, WordsIn, PartsIn;
    ThreeSeen(Key("delete"), Sub(Expression, x.form.value[0]), Key(";"));
    assert UnderIn(Production(Delete, x), Expression) == x.form.value;
  }

  lemma GuardedSeen(key: string, cond: Phrase, block: Phrase)
    ensures forall rule :: UnderIn(Guarded(key, cond, block), rule) ==
                           if rule == Expression then [cond] else if rule == Block then [block] else []
  {
    hide UnderIn, TextsIn, ValuesIn;
    Join([Key(key), Tok(LPAREN, "("), Sub(Expression, cond), Key(")")], [Sub(Block, block)]);
    FourSeen(Key(key), Tok(LPAREN, "("), Sub(Expression, cond), Key(")"));
    One(Sub(Block, block));
  }

  lemma LoopInverts(x: Phrase)
    requires Allowed(Loop, x.form)
    ensures Inverts(Loop, x)
  {
    hide Texts, Under, WordsIn, PartsIn, Guarded;
    GuardedSeen("for", x.form.cond, x.form.body);
    assert UnderIn(Production(Loop, x), Expression) == [x.form.cond];
    assert UnderIn(Production(Loop, x), Block) == [x.form.body];
  }

  lemma OtherwiseSeen(blocks: seq<Phrase>)
    requires 1 <= |blocks| <= 2
    ensures forall rule :: UnderIn(Otherwise(blocks), rule) == if rule == Block then blocks[1..] else []
  {
    hide TextsIn, UnderIn, ValuesIn;
    Nothing();
    if |blocks| == 2 { TwoSeen(Tok(ELSE, "else"), Sub(Block, blocks[1])); }
  }

  lemma ConditionalInverts(x: Phrase)
    requires Allowed(Conditional, x.form)
    ensures Inverts(Conditional, x)
  {
    hide Texts, Under, WordsIn, PartsIn, Guarded, Otherwise;
    ConditionalSeen(x.form.cond, x.form.blocks);
  }

  lemma ConditionalSeen(cond: Phrase, blocks: seq<Phrase>)
    requires 1 <= |blocks| <= 2
    ensures var items := Guarded("if", cond, blocks[0]) + Otherwise(blocks);
      UnderIn(items, Expression) == [cond] && UnderIn(items, Block) == blocks
  {
    hide UnderIn, TextsIn, ValuesIn, Guarded, Otherwise;
    GuardedSeen("if", cond, blocks[0]);
    OtherwiseSeen(blocks);
    Join(Guarded("if", cond, blocks[0]), Otherwise(blocks));
    assert [blocks[0]] + blocks[1..] == blocks;
  }

  lemma PrintInverts(x: Phrase)
    requires Allowed(Print, x.form)
    ensures Inverts(Print, x)
  {
    hide Texts, Under, WordsIn, PartsIn, PrintProduction;
    PrintSeen(x.form.text, x.form.exprs);
  }

  lemma PrintSeen(text: string, exprs: seq<Phrase>)
    ensures var items := PrintProduction(text, exprs);
      TextsIn(items, STRINGLIT) == [text] && UnderIn(items, Expression) == exprs
  {
    hide UnderIn, TextsIn, ValuesIn;
    var head, list := [Key("printf"), Tok(LPAREN, "("), Tok(STRINGLIT, text)], Preceded(",", Expression, exprs);
    Join(head + list, [Key(")"), Key(";")]);
    Join(head, list);
    ThreeSeen(Key("printf"), Tok(LPAREN, "("), Tok(STRINGLIT, text));
    PrecededSeen(",", Expression, exprs);
    TwoSeen(Key(")"), Key(";"));
  }

  lemma TypeInverts(x: Phrase)
    requires Allowed(Type, x.form)
    ensures Inverts(Type, x)
  {
    hide Texts, Under, WordsIn, PartsIn, TypeProduction;
    TypeSeen(x.form.name);
  }

  lemma TypeSeen(name: string)
    ensures var words := WordsIn(TypeProduction(name)); words != [] && words[|words| - 1].text == name
  {
    hide PartsIn;
    var items := TypeProduction(name);
    OneItem(items[0]);
    if |items| == 2 {
      OneItem(items[1]);
      ItemsAppend([items[0]], [items[1]]);
      assert items == [items[0]] + [items[1]];
    }
  }

  lemma DeclInverts(x: Phrase)
    requires Allowed(Decl, x.form)
    ensures Inverts(Decl, x)
  {
    hide Texts, Under, WordsIn, PartsIn;
    TwoSeen(Tok(ID, x.form.id), Sub(Type, x.form.ty));
    assert TextsIn(Production(Decl, x), ID) == [x.form.id] && UnderIn(Production(Decl, x), Type) == [x.form.ty];
  }

  lemma ReturnTypeInverts(x: Phrase)
    requires Allowed(ReturnType, x.form)
    ensures Inverts(ReturnType, x)
  {
    hide Texts, Under, WordsIn, PartsIn;
    One(Sub(Type, x.form.ty));
    assert UnderIn(Production(ReturnType, x), Type) == [x.form.ty];
  }

  lemma StructInverts(x: Phrase)
    requires Allowed(TypeDeclaration, x.form)
    ensures Inverts(TypeDeclaration, x)
  {
    hide Texts, Under, WordsIn, PartsIn, StructProduction;
    StructSeen(x.form.id, x.form.fields);
  }

  lemma StructSeen(id: string, fields: seq<Phrase>)
    ensures var items := StructProduction(id, fields); TextsIn(items, ID) == [id] && UnderIn(items, Decl) == fields
  {
    hide UnderIn, TextsIn, ValuesIn, Terminated;
    var head, list := [Key("type"), Tok(ID, id), Key("struct"), Key("{")], Terminated(Decl, fields);
    Join(head + list, [Key("}"), Key(";")]);
    Join(head, list);
    FourSeen(Key("type"), Tok(ID, id), Key("struct"), Key("{"));
    TerminatedSeen(Decl, fields);
    TwoSeen(Key("}"), Key(";"));
  }

  lemma ProgramInverts(x: Phrase)
    requires Allowed(Program, x.form)
    ensures Inverts(Program, x)
  {
    hide Texts, Under, WordsIn, PartsIn, ProgramProduction;
    ProgramSeen(x.form.types, x.form.declarations, x.form.functions);
  }

  lemma ProgramSeen(types: seq<Phrase>, declarations: seq<Phrase>, functions: seq<Phrase>)
    ensures var items := ProgramProduction(types, declarations, functions);
      && UnderIn(items, TypeDeclaration) == types && UnderIn(items, Declaration) == declarations
      && UnderIn(items, Function) == functions
  {
    hide UnderIn, TextsIn, ValuesIn, Subs;
    var ts, ds, fs := Subs(TypeDeclaration, types), Subs(Declaration, declarations), Subs(Function, functions);
    Join(ts, ds);
    Join(ts + ds, fs);
    Join(ts + ds + fs, [Key("<EOF>")]);
    SubsSeen(TypeDeclaration, types);
    SubsSeen(Declaration, declarations);
    SubsSeen(Function, functions);
    One(Key("<EOF>"));
  }

  lemma ParamsSeen(id: string, params: seq<Phrase>)
    ensures var items := [Key("func"), Tok(ID, id), Tok(LPAREN, "(")] + CommaSeparated(Decl, params) + [Key(")")];
      && TextsIn(items, ID) == [id]
      && forall rule :: UnderIn(items, rule) == if rule == Decl then params else []
  {
    hide TextsIn, UnderIn, ValuesIn;
    var head, ps := [Key("func"), Tok(ID, id), Tok(LPAREN, "(")], CommaSeparated(Decl, params);
    ThreeSeen(Key("func"), Tok(ID, id), Tok(LPAREN, "("));
    Join(head, ps);
    CommaSeparatedSeen(Decl, params);
    Join(head + ps, [Key(")")]);
    One(Key(")"));
  }

  lemma HeaderSeen(id: string, params: seq<Phrase>, ret: seq<Phrase>)
    ensures TextsIn(Header(id, params, ret), ID) == [id]
    ensures forall rule :: UnderIn(Header(id, params, ret), rule) ==
                           if rule == Decl then params else if rule == ReturnType then ret else []
  {
    hide TextsIn, UnderIn, ValuesIn, CommaSeparated, Subs;
    var items := [Key("func"), Tok(ID, id), Tok(LPAREN, "(")] + CommaSeparated(Decl, params) + [Key(")")];
    ParamsSeen(id, params);
    Join(items, Subs(ReturnType, ret));
    SubsSeen(ReturnType, ret);
    Join(items + Subs(ReturnType, ret), [Key("{")]);
    One(Key("{"));
  }

  lemma FunctionInverts(x: Phrase)
    requires Allowed(Function, x.form)
    ensures Inverts(Function, x)
  {
    hide Texts, Under, WordsIn, PartsIn, Header, Subs;
    FunctionSeen(x.form.id, x.form.params, x.form.ret, x.form.declarations, x.form.stms);
  }

  lemma FunctionSeen(id: string, params: seq<Phrase>, ret: seq<Phrase>, declarations: seq<Phrase>, stms: seq<Phrase>)
    ensures var items := Header(id, params, ret) + Subs(Declaration, declarations) + Subs(Statement, stms) + [Key("}")];
      && TextsIn(items, ID) == [id] && UnderIn(items, Decl) == params && UnderIn(items, ReturnType) == ret
      && UnderIn(items, Declaration) == declarations && UnderIn(items, Statement) == stms
  {
    hide TextsIn, UnderIn, ValuesIn, Header, Subs;
    var head, ds, list := Header(id, params, ret), Subs(Declaration, declarations), Subs(Statement, stms);
    HeaderSeen(id, params, ret);
    Join(head, ds);
    SubsSeen(Declaration, declarations);
    Join(head + ds, list);
    SubsSeen(Statement, stms);
    Join(head + ds + list, [Key("}")]);
    One(Key("}"));
  }

  lemma StatementInverts(x: Phrase)
    requires Allowed(Statement, x.form)
    ensures Inverts(Statement, x)
  {
    OneItem(Sub(StatementRule(x.form).value, x));
  }

  /** Whatever the rule and the form, the listener of the rule inverts the production. */
  lemma ListenerInverts(rule: Rule, x: Phrase)
    requires Allowed(rule, x.form)
    ensures Inverts(rule, x)
  {
    hide Inverts, Allowed;
    match rule
    case Factor => FactorInverts(x);
    case SelectorTerm => SelectorInverts(x);
    case UnaryTerm => UnaryInverts(x);
    case LValue => LValueInverts(x);
    case Invocation => InvocationInverts(x);
    case Return => ReturnInverts(x);
    case Loop => LoopInverts(x);
    case Conditional => ConditionalInverts(x);
    case Print => PrintInverts(x);
    case Assignment => AssignmentInverts(x);
    case Read => ReadInverts(x);
    case Delete => DeleteInverts(x);
    case Block => BlockInverts(x);
    case Statement => StatementInverts(x);
    case Function => FunctionInverts(x);
    case Declaration => DeclarationInverts(x);
    case Type => TypeInverts(x);
    case Decl => DeclInverts(x);
    case ReturnType => ReturnTypeInverts(x);
    case TypeDeclaration => StructInverts(x);
    case Program => ProgramInverts(x);
    case _ => ChainInverts(rule, x);
  }
}
