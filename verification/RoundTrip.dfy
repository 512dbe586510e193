/** Parsing inverts the grammar: what the walk builds from any parse tree of a syntax tree is that syntax tree. */
module RoundTrip {
  import opened AttributeMap
  import opened Grammar

  // ----- Forgetting positions -----

  function Bare(a: Ast<Pos>): Phrase
    decreases a, 1
  {
    Ast((), BareForm(a.form))
  }

  function BareAll(s: seq<Ast<Pos>>): (r: seq<Phrase>)
    ensures |r| == |s| && forall i :: 0 <= i < |s| ==> r[i] == Bare(s[i])
    decreases s, 0
  {
    if s == [] then [] else [Bare(s[0])] + BareAll(s[1..])
  }

  function BareForm(form: Form<Pos>): Form<()>
    decreases form
  {
    match form
    case IntLit(text) => IntLit(text)
    case BoolLit(truth) => BoolLit(truth)
    case Nil => Nil
    case NewOf(id) => NewOf(id)
    case Variable(id) => Variable(id)
    case Invoke(id, args) => Invoke(id, BareAll(args))
    case Paren(inner) => Paren(Bare(inner))
    case Field(base, ids) => Field(Bare(base), ids)
    case Unary(op, operand) => Unary(op, Bare(operand))
    case Binary(first, rest, ops) => Binary(Bare(first), BareAll(rest), ops)
    case LVal(ids) => LVal(ids)
    case ReturnOf(value) => ReturnOf(BareAll(value))
    case LoopOf(cond, body) => LoopOf(Bare(cond), Bare(body))
    case If(cond, blocks) => If(Bare(cond), BareAll(blocks))
    case PrintOf(text, exprs) => PrintOf(text, BareAll(exprs))
    case Assign(target, value) => Assign(Bare(target), BareAll(value))
    case ReadOf(target) => ReadOf(Bare(target))
    case DeleteOf(value) => DeleteOf(BareAll(value))
    case BlockOf(stms) => BlockOf(BareAll(stms))
    case TypeOf(name) => TypeOf(name)
    case DeclOf(id, ty) => DeclOf(id, Bare(ty))
    case Declare(ids, ty) => Declare(ids, Bare(ty))
    case Returns(ty) => Returns(Bare(ty))
    case Func(id, params, ret, declarations, stms) =>
      Func(id, BareAll(params), BareAll(ret), BareAll(declarations), BareAll(stms))
    case Struct(id, fields) => Struct(id, BareAll(fields))
    case Prog(types, declarations, functions) => Prog(BareAll(types), BareAll(declarations), BareAll(functions))
    case NoForm => NoForm
  }

  function BareParts(parts: seq<(Rule, Ast<Pos>)>): seq<(Rule, Phrase)> {
    if parts == [] then []
    else
      var last := parts[|parts| - 1];
      BareParts(parts[..|parts| - 1]) + [(last.0, Bare(last.1))]
  }

  // ----- Listeners do not look at positions -----

  lemma BareSnoc(s: seq<Ast<Pos>>, a: Ast<Pos>)
    ensures BareAll(s + [a]) == BareAll(s) + [Bare(a)]
  {
  }

  lemma {:induction false} UnderBare(parts: seq<(Rule, Ast<Pos>)>, rule: Rule)
    ensures Under(BareParts(parts), rule) == BareAll(Under(parts, rule))
    decreases |parts|
  {
    hide BareAll, Bare;
    if parts == [] {
      NoneBare();
    } else {
      var n := |parts| - 1;
      UnderBare(parts[..n], rule);
      var after := BareParts(parts);
      assert after[..|after| - 1] == BareParts(parts[..n]);
      BareSnoc(Under(parts[..n], rule), parts[n].1);
    }
  }

  lemma NoneBare()
    ensures BareAll([]) == []
  {
  }

  lemma {:induction false} ValuesBare(parts: seq<(Rule, Ast<Pos>)>)
    ensures Values(BareParts(parts)) == BareAll(Values(parts)) && |BareParts(parts)| == |parts|
    decreases |parts|
  {
    hide BareAll, Bare;
    if parts == [] {
      NoneBare();
    } else {
      var n := |parts| - 1;
      ValuesBare(parts[..n]);
      var after := BareParts(parts);
      assert after[..|after| - 1] == BareParts(parts[..n]);
      BareSnoc(Values(parts[..n]), parts[n].1);
    }
  }

  lemma OneBare(at: Pos, parts: seq<(Rule, Ast<Pos>)>, rule: Rule)
    ensures OneUnder((), BareParts(parts), rule) == Bare(OneUnder(at, parts, rule))
  {
    hide Under, BareParts;
    UnderBare(parts, rule);
  }

  lemma {:induction false} FirstBare(at: Pos, parts: seq<(Rule, Ast<Pos>)>)
    ensures FirstValue((), BareParts(parts)) == Bare(FirstValue(at, parts))
    decreases |parts|
  {
    hide Bare;
    if parts == [] {
      NoFormBare(at);
    } else {
      var n := |parts| - 1;
      ValuesBare(parts[..n]);
      if n > 0 {
        FirstBare(at, parts[..n]);
        assert parts[..n][0] == parts[0];
      }
    }
  }

  lemma NoFormBare(at: Pos)
    ensures Bare(Ast(at, NoForm)) == Ast((), NoForm)
  {
  }

  lemma ChainBare(words: seq<Word>, parts: seq<(Rule, Ast<Pos>)>)
    ensures BareForm(ExitBinary(words, parts)) == ExitBinary(words, BareParts(parts))
  {
    hide Values, Texts, BareParts;
    ValuesBare(parts);
    var values := Values(parts);
    if values != [] { assert BareAll(values)[1..] == BareAll(values[1..]); }
  }

  lemma FactorBare(at: Pos, words: seq<Word>, parts: seq<(Rule, Ast<Pos>)>)
    ensures BareForm(ExitFactor(at, words, parts)) == ExitFactor((), words, BareParts(parts))
  {
    hide Under, Texts, BareParts, OneUnder;
    UnderBare(parts, Expression);
    OneBare(at, parts, Expression);
  }

  lemma ExpressionBare(rule: Rule, at: Pos, words: seq<Word>, parts: seq<(Rule, Ast<Pos>)>)
    requires rule.Factor? || rule.SelectorTerm? || rule.UnaryTerm? || rule.LValue? || IsChain(rule)
    ensures Bare(Exit(rule, at, words, parts)) == Exit(rule, (), words, BareParts(parts))
  {
    hide Under, Texts, BareParts, OneUnder, ExitFactor, ExitBinary, BareAll;
    match rule
    case Factor => FactorBare(at, words, parts);
    case SelectorTerm => OneBare(at, parts, Factor);
    case UnaryTerm => OneBare(at, parts, SelectorTerm);
    case LValue =>
    case _ => ChainBare(words, parts);
  }

  predicate IsStatement(rule: Rule) {
    rule.Return? || rule.Loop? || rule.Conditional? || rule.Print? || rule.Assignment? || rule.Read? || rule.Delete?
    || rule.Block? || rule.Statement? || rule.Invocation?
  }

  lemma StatementBare(rule: Rule, at: Pos, words: seq<Word>, parts: seq<(Rule, Ast<Pos>)>)
    requires IsStatement(rule)
    ensures Bare(Exit(rule, at, words, parts)) == Exit(rule, (), words, BareParts(parts))
  {
    hide Under, Texts, BareParts, OneUnder, FirstValue, BareAll;
    match rule
    case Invocation => UnderBare(parts, Expression);
    case Return => UnderBare(parts, Expression);
    case Loop =>
      OneBare(at, parts, Expression);
      OneBare(at, parts, Block);
    case Conditional =>
      OneBare(at, parts, Expression);
      UnderBare(parts, Block);
    case Print => UnderBare(parts, Expression);
    case Assignment =>
      OneBare(at, parts, LValue);
      UnderBare(parts, Expression);
    case Read => OneBare(at, parts, LValue);
    case Delete => UnderBare(parts, Expression);
    case Block => UnderBare(parts, Statement);
    case Statement => FirstBare(at, parts);
  }

  lemma DeclarationBare(rule: Rule, at: Pos, words: seq<Word>, parts: seq<(Rule, Ast<Pos>)>)
    requires rule.Declaration? || rule.Type? || rule.Decl? || rule.ReturnType? || rule.TypeDeclaration?
    ensures Bare(Exit(rule, at, words, parts)) == Exit(rule, (), words, BareParts(parts))
  {
    hide Under, Texts, BareParts, OneUnder, BareAll;
    match rule
    case Declaration => OneBare(at, parts, Type);
    case Type =>
    case Decl => OneBare(at, parts, Type);
    case ReturnType => OneBare(at, parts, Type);
    case TypeDeclaration => UnderBare(parts, Decl);
  }

  lemma TopBare(rule: Rule, at: Pos, words: seq<Word>, parts: seq<(Rule, Ast<Pos>)>)
    requires rule.Function? || rule.Program?
    ensures Bare(Exit(rule, at, words, parts)) == Exit(rule, (), words, BareParts(parts))
  {
    hide Under, Texts, BareParts, OneUnder, BareAll;
    UnderBare(parts, Decl);
    UnderBare(parts, ReturnType);
    UnderBare(parts, Declaration);
    UnderBare(parts, Statement);
    UnderBare(parts, TypeDeclaration);
    UnderBare(parts, Function);
  }

  /** A listener builds the same form whatever the positions. */
  lemma ExitBare(rule: Rule, at: Pos, words: seq<Word>, parts: seq<(Rule, Ast<Pos>)>)
    ensures Bare(Exit(rule, at, words, parts)) == Exit(rule, (), words, BareParts(parts))
  {
    hide Exit, Bare, BareParts;
    if IsStatement(rule) {
      StatementBare(rule, at, words, parts);
    } else if rule.Factor? || rule.SelectorTerm? || rule.UnaryTerm? || rule.LValue? || IsChain(rule) {
      ExpressionBare(rule, at, words, parts);
    } else if rule.Function? || rule.Program? {
      TopBare(rule, at, words, parts);
    } else {
      DeclarationBare(rule, at, words, parts);
    }
  }

  // ----- The fold of a parse tree -----

  lemma ProductionNotEmpty(rule: Rule, x: Phrase)
    requires Allowed(rule, x.form)
    ensures Production(rule, x) != []
  {
  }

  /** The children of a node see to the symbols of the production. */
  ghost predicate Match(children: seq<Tree>, items: seq<Item>) {
    |children| == |items| && forall i :: 0 <= i < |items| ==> IsChildOf(children[i], items[i])
  }

  lemma {:induction false} TreeCovers(t: Tree, rule: Rule, x: Phrase)
    requires IsTreeOf(t, rule, x)
    ensures Covers(t)
    decreases t
  {
    hide Production, Allowed;
    ProductionNotEmpty(rule, x);
    var items := Production(rule, x);
    forall c <- t.children ensures Covers(c) {
      var i :| 0 <= i < |items| && t.children[i] == c;
      assert IsChildOf(t.children[i], items[i]);
      if items[i].Sub? { TreeCovers(c, items[i].rule, items[i].phrase); }
    }
  }

  /** Folding any parse tree of a phrase gives the phrase. */
  lemma {:induction false} FoldOfTree(t: Tree, rule: Rule, x: Phrase)
    requires IsTreeOf(t, rule, x)
    ensures Covers(t) && Bare(Fold(t)) == x
    decreases t, 1
  {
    hide Production, Allowed, Exit, WordsOf, Parts, BareParts, WordsIn, PartsIn, Bare, Covers, Start;
    TreeCovers(t, rule, x);
    ChildrenCovered(t);
    var items := Production(rule, x);
    ChildrenSeen(t, items, |items|);
    assert t.children[..|items|] == t.children && items[..|items|] == items;
    ExitBare(rule, Start(t), WordsOf(t.children), Parts(t.children));
    ListenerInverts(rule, x);
    SameForm(Exit(rule, (), WordsIn(items), PartsIn(items)), x, rule);
  }

  lemma SameForm(a: Phrase, x: Phrase, rule: Rule)
    requires a.form == x.form
    ensures a == x
  {
    match (a.at, x.at)
    case ((), ()) =>
  }

  lemma {:induction false} ChildrenSeen(t: Tree, items: seq<Item>, n: nat)
    requires t.Node? && Match(t.children, items) && n <= |items| && forall c <- t.children :: Covers(c)
    ensures WordsOf(t.children[..n]) == WordsIn(items[..n])
    ensures (forall c <- t.children[..n] :: Covers(c)) && BareParts(Parts(t.children[..n])) == PartsIn(items[..n])
    decreases t, 0, n
  {
    hide Bare, Covers, Fold, IsChildOf, WordsOf, Parts, WordsIn, PartsIn, BareParts;
    if n == 0 {
      NoChildSeen();
    } else {
      var cs, front := t.children[..n - 1], items[..n - 1];
      var c, item := t.children[n - 1], items[n - 1];
      ChildrenSeen(t, items, n - 1);
      assert IsChildOf(c, item);
      assert c in t.children;
      if item.Sub? { ChildFolds(t, c, item); }
      assert t.children[..n] == cs + [c] && items[..n] == front + [item];
      OneMoreChild(cs, c, front, item);
    }
  }

  lemma NoChildSeen()
    ensures WordsOf([]) == WordsIn([]) && BareParts(Parts([])) == PartsIn([])
  {
  }

  lemma {:induction false} ChildFolds(t: Tree, c: Tree, item: Item)
    requires t.Node? && c in t.children && item.Sub? && IsChildOf(c, item)
    ensures c.Node? && c.rule == item.rule && Covers(c) && Bare(Fold(c)) == item.phrase
    decreases t, 0, 0
  {
    FoldOfTree(c, item.rule, item.phrase);
  }

  lemma OneMoreChild(cs: seq<Tree>, c: Tree, items: seq<Item>, item: Item)
    requires (forall d <- cs :: Covers(d)) && Covers(c) && IsChildOf(c, item)
    requires WordsOf(cs) == WordsIn(items) && BareParts(Parts(cs)) == PartsIn(items)
    requires item.Sub? ==> c.Node? && c.rule == item.rule && Bare(Fold(c)) == item.phrase
    ensures WordsOf(cs + [c]) == WordsIn(items + [item])
    ensures (forall d <- cs + [c] :: Covers(d)) && BareParts(Parts(cs + [c])) == PartsIn(items + [item])
  {
    hide Bare, Covers, Fold, Production, Allowed, BareParts, PartsIn, Parts;
    assert (cs + [c])[..|cs|] == cs && (items + [item])[..|items|] == items;
    PartsOn(cs, c);
    ItemsOn(items, item);
    if item.Sub? {
      BarePartsOn(Parts(cs), item.rule, Fold(c));
    } else {
      assert Parts(cs) + [] == Parts(cs) && PartsIn(items) + [] == PartsIn(items);
    }
  }

  lemma PartsOn(cs: seq<Tree>, c: Tree)
    requires (forall d <- cs :: Covers(d)) && Covers(c)
    ensures (forall d <- cs + [c] :: Covers(d))
    ensures Parts(cs + [c]) == Parts(cs) + if c.Node? then [(c.rule, Fold(c))] else []
  {
    hide Covers, Fold;
    assert (cs + [c])[..|cs|] == cs;
  }

  lemma ItemsOn(items: seq<Item>, item: Item)
    ensures PartsIn(items + [item]) == PartsIn(items) + if item.Sub? then [(item.rule, item.phrase)] else []
  {
    assert (items + [item])[..|items|] == items;
  }

  lemma BarePartsOn(parts: seq<(Rule, Ast<Pos>)>, rule: Rule, a: Ast<Pos>)
    ensures BareParts(parts + [(rule, a)]) == BareParts(parts) + [(rule, Bare(a))]
  {
    hide Bare;
    var more := parts + [(rule, a)];
    assert more[..|more| - 1] == parts;
  }

  // ----- Every syntax tree is parsed -----

  /** A statement stands for itself under its own rule, and so does a term without an operator. */
  function Level(rule: Rule): nat { if rule.Statement? || rule.UnaryTerm? then 1 else 0 }

  ghost predicate Smaller(item: Item, rule: Rule, x: Phrase) {
    item.Sub? ==> item.phrase < x || (item.phrase == x && Level(item.rule) < Level(rule))
  }

  /** The syntax trees the grammar has under a rule. */
  ghost predicate IsPhrase(rule: Rule, x: Phrase)
    decreases x, Level(rule)
  {
    Allowed(rule, x.form) &&
    forall item <- Production(rule, x) :: item.Sub? ==> Smaller(item, rule, x) && IsPhrase(item.rule, item.phrase)
  }

  /** One written line of text for a syntax tree, its words in the columns from k on. */
  ghost function Write(rule: Rule, x: Phrase, k: nat): Tree
    requires IsPhrase(rule, x)
    decreases x, Level(rule), |Production(rule, x)| + 1
  {
    Node(rule, WriteAll(Production(rule, x), rule, x, k))
  }

  ghost predicate Writable(items: seq<Item>, rule: Rule, x: Phrase) {
    forall item <- items :: item.Sub? ==> Smaller(item, rule, x) && IsPhrase(item.rule, item.phrase)
  }

  ghost function WriteAll(items: seq<Item>, rule: Rule, x: Phrase, k: nat): seq<Tree>
    requires Writable(items, rule, x)
    decreases x, Level(rule), |items|
  {
    if items == [] then []
    else
      var last := items[|items| - 1];
      var front := WriteAll(items[..|items| - 1], rule, x, k);
      front + [WriteOne(last, rule, x, k + |AllTokens(front)|)]
  }

  ghost function WriteOne(item: Item, rule: Rule, x: Phrase, k: nat): Tree
    requires item.Sub? ==> Smaller(item, rule, x) && IsPhrase(item.rule, item.phrase)
    decreases x, Level(rule), 0
  {
    if item.Sub? then Write(item.rule, item.phrase, k) else Leaf(Token(item.word, (1, k)))
  }

  lemma WriteSnoc(items: seq<Item>, rule: Rule, x: Phrase, k: nat) returns (front: seq<Tree>, c: Tree)
    requires Writable(items, rule, x) && items != []
    ensures var n := |items| - 1;
      && Writable(items[..n], rule, x) && front == WriteAll(items[..n], rule, x, k)
      && (items[n].Sub? ==> Smaller(items[n], rule, x) && IsPhrase(items[n].rule, items[n].phrase))
      && c == WriteOne(items[n], rule, x, k + |AllTokens(front)|) && WriteAll(items, rule, x, k) == front + [c]
      && AllTokens(WriteAll(items, rule, x, k)) == AllTokens(front) + Tokens(c)
  {
    hide IsPhrase, Smaller, WriteOne, AllTokens, Tokens;
    var n := |items| - 1;
    front := WriteAll(items[..n], rule, x, k);
    c := WriteOne(items[n], rule, x, k + |AllTokens(front)|);
    TokensOn(front, c);
  }

  lemma TokensOn(front: seq<Tree>, c: Tree)
    ensures AllTokens(front + [c]) == AllTokens(front) + Tokens(c)
  {
    var all := front + [c];
    assert all[..|all| - 1] == front;
  }

  lemma WriteNone(rule: Rule, x: Phrase, k: nat)
    ensures WriteAll([], rule, x, k) == [] && AllTokens([]) == []
  {
  }

  lemma {:induction false} WrittenIsTree(rule: Rule, x: Phrase, k: nat)
    requires IsPhrase(rule, x)
    ensures IsTreeOf(Write(rule, x, k), rule, x)
    decreases x, Level(rule), |Production(rule, x)| + 1
  {
    hide Production, Allowed, Smaller;
    AllWritten(Production(rule, x), rule, x, k);
  }

  lemma {:induction false} AllWritten(items: seq<Item>, rule: Rule, x: Phrase, k: nat)
    requires Writable(items, rule, x)
    ensures Match(WriteAll(items, rule, x, k), items)
    decreases x, Level(rule), |items|
  {
    hide IsPhrase, Smaller, IsTreeOf, IsChildOf, Match, Write, WriteOne, WriteAll, AllTokens;
    if items == [] {
      WriteNone(rule, x, k);
      NothingMatches();
    } else {
      var n := |items| - 1;
      var front, c := WriteSnoc(items, rule, x, k);
      AllWritten(items[..n], rule, x, k);
      OneWritten(items[n], rule, x, k + |AllTokens(front)|);
      MatchOn(front, items[..n], c, items[n]);
      assert items[..n] + [items[n]] == items;
    }
  }

  lemma {:induction false} OneWritten(item: Item, rule: Rule, x: Phrase, k: nat)
    requires item.Sub? ==> Smaller(item, rule, x) && IsPhrase(item.rule, item.phrase)
    ensures IsChildOf(WriteOne(item, rule, x, k), item)
    decreases x, Level(rule), 0
  {
    hide IsPhrase, IsTreeOf, Write;
    if item.Sub? { WrittenIsTree(item.rule, item.phrase, k); }
  }

  lemma NothingMatches()
    ensures Match([], [])
  {
  }

  lemma MatchOn(cs: seq<Tree>, items: seq<Item>, c: Tree, item: Item)
    requires Match(cs, items) && IsChildOf(c, item)
    ensures Match(cs + [c], items + [item])
  {
    hide IsChildOf;
  }

  /** Positions next to each other in the first line. */
  predicate InLine(s: seq<Pos>, k: nat) {
    forall i :: 0 <= i < |s| ==> s[i] == (1, k + i)
  }

  lemma {:induction false} WrittenInLine(rule: Rule, x: Phrase, k: nat)
    requires IsPhrase(rule, x)
    ensures InLine(Tokens(Write(rule, x, k)), k)
    decreases x, Level(rule), |Production(rule, x)| + 1
  {
    hide Production, Allowed, Smaller, InLine;
    AllInLine(Production(rule, x), rule, x, k);
  }

  lemma {:induction false} AllInLine(items: seq<Item>, rule: Rule, x: Phrase, k: nat)
    requires Writable(items, rule, x)
    ensures InLine(AllTokens(WriteAll(items, rule, x, k)), k)
    decreases x, Level(rule), |items|
  {
    hide IsPhrase, Smaller, WriteOne, Tokens, InLine;
    if items == [] {
      WriteNone(rule, x, k);
      EmptyLine(k);
    } else {
      var n := |items| - 1;
      var front, c := WriteSnoc(items, rule, x, k);
      AllInLine(items[..n], rule, x, k);
      OneInLine(items[n], rule, x, k + |AllTokens(front)|);
      LineOn(AllTokens(front), Tokens(c), k);
    }
  }

  lemma EmptyLine(k: nat)
    ensures InLine([], k)
  {
  }

  lemma {:induction false} OneInLine(item: Item, rule: Rule, x: Phrase, k: nat)
    requires item.Sub? ==> Smaller(item, rule, x) && IsPhrase(item.rule, item.phrase)
    ensures InLine(Tokens(WriteOne(item, rule, x, k)), k)
    decreases x, Level(rule), 0
  {
    hide IsPhrase, Write;
    if item.Sub? { WrittenInLine(item.rule, item.phrase, k); }
  }

  lemma LineOn(a: seq<Pos>, b: seq<Pos>, k: nat)
    requires InLine(a, k) && InLine(b, k + |a|)
    ensures InLine(a + b, k)
  {
  }

  /** Every syntax tree of the grammar has a parse tree in text order, and walking it gives the syntax tree back. */
  lemma WrittenIsRead(rule: Rule, x: Phrase, k: nat)
    requires IsPhrase(rule, x)
    ensures var t := Write(rule, x, k);
      && IsTreeOf(t, rule, x) && t.Node? && Covers(t) && InTextOrder(t)
      && Bare(Fold(t)) == x && Fold(t).at == (1, k)
  {
    hide Write, IsPhrase, Fold, Tokens, Bare;
    WrittenIsTree(rule, x, k);
    FoldOfTree(Write(rule, x, k), rule, x);
    WrittenInLine(rule, x, k);
    StartsAt(Write(rule, x, k), rule, x, k);
  }

  /** A syntax tree is placed where its first word is. */
  lemma {:induction false} FoldStarts(t: Tree, rule: Rule, x: Phrase)
    requires IsTreeOf(t, rule, x)
    ensures Covers(t) && Fold(t).at == Start(t)
    decreases t
  {
    hide Texts, Under, WordsOf, Parts, Covers, Start;
    TreeCovers(t, rule, x);
    if rule.UnaryTerm? && x.form.Unary? {
      UnaryStarts(t, x);
    } else if Level(rule) == 1 {
      var item := Production(rule, x)[0];
      assert IsChildOf(t.children[0], item);
      FoldStarts(t.children[0], item.rule, item.phrase);
      OnlyPart(t);
      PassThrough(rule, Start(t), item.rule, Fold(t.children[0]));
    }
  }

  lemma UnaryStarts(t: Tree, x: Phrase)
    requires IsTreeOf(t, UnaryTerm, x) && x.form.Unary? && Covers(t)
    ensures Fold(t).at == Start(t)
  {
    hide Texts, Under, WordsOf, Parts, WordsIn, Covers, Start;
    ChildrenCovered(t);
    var items := Production(UnaryTerm, x);
    ChildrenSeen(t, items, 2);
    assert t.children[..2] == t.children && items[..2] == items;
    UnarySeen(x);
    assert Texts(WordsIn(items), MINUS) == TextsIn(items, MINUS) && Texts(WordsIn(items), NOT) == TextsIn(items, NOT);
  }

  /** What stands for itself is passed on. */
  lemma PassThrough(rule: Rule, at: Pos, below: Rule, v: Ast<Pos>)
    requires rule.Statement? || (rule.UnaryTerm? && below.SelectorTerm?)
    ensures Exit(rule, at, [], [(below, v)]) == v
  {
    var parts := [(below, v)];
    assert parts[..0] == [] && Under(parts[..0], below) == [];
    assert Texts([], MINUS) == [] && Texts([], NOT) == [];
  }

  lemma OnlyPart(t: Tree)
    requires t.Node? && Covers(t) && |t.children| == 1 && t.children[0].Node?
    ensures Parts(t.children) == [(t.children[0].rule, Fold(t.children[0]))] && WordsOf(t.children) == []
    ensures Start(t) == Start(t.children[0])
  {
    assert t.children[..0] == [];
  }

  lemma StartsAt(t: Tree, rule: Rule, x: Phrase, k: nat)
    requires IsTreeOf(t, rule, x) && InLine(Tokens(t), k)
    ensures Covers(t) && Fold(t).at == (1, k)
  {
    hide IsTreeOf, Fold;
    FoldStarts(t, rule, x);
    StartIsFirst(t);
  }

  lemma {:induction false} StartIsFirst(t: Tree)
    requires Covers(t)
    ensures Tokens(t) != [] && Tokens(t)[0] == Start(t)
    decreases t, 1
  {
    if t.Node? {
      StartIsFirst(t.children[0]);
      FirstOfAll(t.children);
    }
  }

  lemma {:induction false} FirstOfAll(ts: seq<Tree>)
    requires ts != [] && Tokens(ts[0]) != []
    ensures AllTokens(ts) != [] && AllTokens(ts)[0] == Tokens(ts[0])[0]
    decreases |ts|
  {
    var front := ts[..|ts| - 1];
    if front == [] {
      assert AllTokens(front) == [];
    } else {
      FirstOfAll(front);
    }
  }

  // ----- Exactly the syntax trees of the grammar -----

  lemma {:induction false} SubsSmaller(r: Rule, xs: seq<Phrase>, item: Item)
    requires item in Subs(r, xs)
    ensures item.Sub? && item.phrase in xs
    decreases |xs|
  {
    if item != Sub(r, xs[|xs| - 1]) { SubsSmaller(r, xs[..|xs| - 1], item); }
  }

  lemma {:induction false} PrecededSmaller(sep: string, r: Rule, xs: seq<Phrase>, item: Item)
    requires item in Preceded(sep, r, xs)
    ensures item.Sub? ==> item.phrase in xs
    decreases |xs|
  {
    if item !in [Key(sep), Sub(r, xs[|xs| - 1])] { PrecededSmaller(sep, r, xs[..|xs| - 1], item); }
  }

  lemma CommaSmaller(r: Rule, xs: seq<Phrase>, item: Item)
    requires item in CommaSeparated(r, xs)
    ensures item.Sub? ==> item.phrase in xs
  {
    if item != Sub(r, xs[0]) { PrecededSmaller(",", r, xs[1..], item); }
  }

  lemma {:induction false} TerminatedSmaller(r: Rule, xs: seq<Phrase>, item: Item)
    requires item in Terminated(r, xs)
    ensures item.Sub? ==> item.phrase in xs
    decreases |xs|
  {
    if item !in [Sub(r, xs[|xs| - 1]), Key(";")] { TerminatedSmaller(r, xs[..|xs| - 1], item); }
  }

  lemma {:induction false} NamesHaveNoPhrase(sep: string, ids: seq<string>, item: Item)
    requires item in Names(sep, ids)
    ensures item.Lex?
    decreases |ids|
  {
    if item !in [Key(sep), Tok(ID, ids[|ids| - 1])] { NamesHaveNoPhrase(sep, ids[..|ids| - 1], item); }
  }

  lemma {:induction false} OperationsSmaller(r: Rule, ops: seq<string>, rest: seq<Phrase>, item: Item)
    requires |ops| == |rest| && item in Operations(r, ops, rest)
    ensures item.Sub? ==> item.phrase in rest
    decreases |ops|
  {
    var n := |ops| - 1;
    if item !in [Tok(OPERATOR, ops[n]), Sub(r, rest[n])] { OperationsSmaller(r, ops[..n], rest[..n], item); }
  }

  lemma FactorSmaller(x: Phrase, item: Item)
    requires Allowed(Factor, x.form) && item in Production(Factor, x)
    ensures Smaller(item, Factor, x)
  {
    hide CommaSeparated;
    var form := x.form;
    if form.Invoke? && item in CommaSeparated(Expression, form.args) { CommaSmaller(Expression, form.args, item); }
  }

  lemma FunctionSmaller(x: Phrase, item: Item)
    requires Allowed(Function, x.form) && item in Production(Function, x)
    ensures Smaller(item, Function, x)
  {
    hide Subs, CommaSeparated;
    var form := x.form;
    if item in CommaSeparated(Decl, form.params) { CommaSmaller(Decl, form.params, item); }
    if item in Subs(ReturnType, form.ret) { SubsSmaller(ReturnType, form.ret, item); }
    if item in Subs(Declaration, form.declarations) { SubsSmaller(Declaration, form.declarations, item); }
    if item in Subs(Statement, form.stms) { SubsSmaller(Statement, form.stms, item); }
  }

  lemma ProgramSmaller(x: Phrase, item: Item)
    requires Allowed(Program, x.form) && item in Production(Program, x)
    ensures Smaller(item, Program, x)
  {
    hide Subs;
    var form := x.form;
    if item in Subs(TypeDeclaration, form.types) { SubsSmaller(TypeDeclaration, form.types, item); }
    if item in Subs(Declaration, form.declarations) { SubsSmaller(Declaration, form.declarations, item); }
    if item in Subs(Function, form.functions) { SubsSmaller(Function, form.functions, item); }
  }

  /** Phrases on a right-hand side are parts of the phrase, or itself under a lower rule. */
  lemma ProductionSmaller(rule: Rule, x: Phrase, item: Item)
    requires Allowed(rule, x.form) && item in Production(rule, x)
    ensures Smaller(item, rule, x)
  {
    hide Subs, Preceded, CommaSeparated, Terminated, Names, Operations, FactorProduction, Header, ProgramProduction;
    var form := x.form;
    match rule
    case Factor => FactorSmaller(x, item);
    case SelectorTerm => if item in Names(".", form.ids) { NamesHaveNoPhrase(".", form.ids, item); }
    case UnaryTerm =>
    case LValue => if item in Names(".", form.ids[1..]) { NamesHaveNoPhrase(".", form.ids[1..], item); }
    case Invocation => if item in CommaSeparated(Expression, form.args) { CommaSmaller(Expression, form.args, item); }
    case Return => if item in Subs(Expression, form.value) { SubsSmaller(Expression, form.value, item); }
    case Loop =>
    case Conditional =>
    case Print =>
      if item in Preceded(",", Expression, form.exprs) { PrecededSmaller(",", Expression, form.exprs, item); }
    case Assignment =>
    case Read =>
    case Delete =>
    case Block => if item in Subs(Statement, form.stms) { SubsSmaller(Statement, form.stms, item); }
    case Statement =>
    case Function => FunctionSmaller(x, item);
    case Declaration => if item in Names(",", form.ids[1..]) { NamesHaveNoPhrase(",", form.ids[1..], item); }
    case Type =>
    case Decl =>
    case ReturnType =>
    case TypeDeclaration => if item in Terminated(Decl, form.fields) { TerminatedSmaller(Decl, form.fields, item); }
    case Program => ProgramSmaller(x, item);
    case _ =>
      if item in Operations(Below(rule), form.ops, form.rest) {
        OperationsSmaller(Below(rule), form.ops, form.rest, item);
      }
  }

  lemma {:induction false} TreeIsOfPhrase(t: Tree, rule: Rule, x: Phrase)
    requires IsTreeOf(t, rule, x)
    ensures IsPhrase(rule, x)
    decreases t
  {
    hide Production, Allowed, Smaller;
    var items := Production(rule, x);
    forall item <- items | item.Sub? ensures Smaller(item, rule, x) && IsPhrase(item.rule, item.phrase) {
      var i :| 0 <= i < |items| && items[i] == item;
      assert IsChildOf(t.children[i], items[i]);
      ProductionSmaller(rule, x, item);
      TreeIsOfPhrase(t.children[i], item.rule, item.phrase);
    }
  }

  /** The syntax trees with a parse tree are those of the grammar. */
  lemma PhrasesHaveTrees(rule: Rule, x: Phrase)
    ensures IsPhrase(rule, x) <==> exists t :: IsTreeOf(t, rule, x)
  {
    hide IsPhrase, IsTreeOf;
    if IsPhrase(rule, x) { WrittenIsTree(rule, x, 0); }
    if t :| IsTreeOf(t, rule, x) { TreeIsOfPhrase(t, rule, x); }
  }

  /** Parsing a parse tree of a syntax tree, in text order, returns that syntax tree, placed at its first word. */
  method ParseTree(parser: Parser, t: Tree, rule: Rule, ghost x: Phrase) returns (result: Ast<Pos>)
    requires IsTreeOf(t, rule, x) && InTextOrder(t)
    modifies parser
    ensures Bare(result) == x && Covers(t) && result.at == Start(t)
  {
    hide IsTreeOf, Fold, Covers;
    FoldOfTree(t, rule, x);
    FoldStarts(t, rule, x);
    TreeIsNode(t, rule, x);
    result := parser.Parse(t);
  }

  lemma TreeIsNode(t: Tree, rule: Rule, x: Phrase)
    requires IsTreeOf(t, rule, x)
    ensures t.Node?
  {
  }
}
