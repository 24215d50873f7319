/** Every tree with nothing missing can be written: with parentheses only where
    an operand binds less tightly than its place asks, some derivation spells it.
    And nothing else comes out of the parser. */
module Writing {
  import opened Words
  import opened Tokens
  import opened Syntax
  import opened Grammar
  import Parsing
  import ProgramSound

  // -------------------------------------------------------------- expressions

  /** Nothing is missing, and every operator is one of its kind. */
  predicate ProperExpr(e: Expr)
    decreases e
  {
    match e
    case NoExpr => false
    case Unary(op, x) => PrefixOp(op) && ProperExpr(x)
    case Binary(op, l, r) => LevelOf(op) < 10 && ProperExpr(l) && ProperExpr(r)
    case Call(c, args) => ProperExpr(c) && ProperArgs(args)
    case Index(b, i) => ProperExpr(b) && ProperExpr(i)
    case Field(b, f) => ProperExpr(b) && f.Some?
    case Cast(x, t) => ProperExpr(x) && ProperType(t)
    case SizeOf(t) => ProperType(t)
    case _ => true
  }

  predicate ProperArgs(args: seq<Expr>)
    decreases args
  {
    args == [] || (ProperExpr(args[0]) && ProperArgs(args[1..]))
  }

  /** A derivation as an operand of level `k`. */
  function At(f: ExprForm, k: nat): ExprForm {
    if Level(f) < k then ParenF(f) else f
  }

  function FormOf(e: Expr): ExprForm
    decreases e
  {
    match e
    case Unary(op, x) => UnaryF(op, At(FormOf(x), 10))
    case Binary(op, l, r) => BinaryF(op, At(FormOf(l), LevelOf(op)), At(FormOf(r), LevelOf(op) + 1))
    case Call(c, args) => CallF(At(FormOf(c), 11), FormsOf(args))
    case Index(b, i) => IndexF(At(FormOf(b), 11), FormOf(i))
    case Field(b, f) => FieldF(At(FormOf(b), 11), if f.Some? then f.value else "")
    case Cast(x, t) => CastF(At(FormOf(x), 11), t)
    case SizeOf(t) => SizeOfF(t)
    case _ => AtomF(e)
  }

  function FormsOf(args: seq<Expr>): seq<ExprForm>
    decreases args
  {
    if args == [] then [] else [FormOf(args[0])] + FormsOf(args[1..])
  }

  lemma AtGood(f: ExprForm, k: nat)
    requires GoodExpr(f) && k <= 12
    ensures GoodExpr(At(f, k)) && Level(At(f, k)) >= k && ExprTree(At(f, k)) == ExprTree(f)
  {
  }

  lemma {:induction false} ExprWritten(e: Expr)
    requires ProperExpr(e)
    ensures GoodExpr(FormOf(e)) && ExprTree(FormOf(e)) == e
    decreases e, 1
  {
    hide At, Level, LevelOf, PrefixOp, ProperType, ArgsTree, GoodArgs, FormsOf, ProperArgs;
    match e {
      case Unary(_, x) =>
        ExprWritten(x);
        AtGood(FormOf(x), 10);
      case Binary(_, _, _) => BinaryWritten(e);
      case Call(_, _) => PostfixWritten(e);
      case Index(_, _) => PostfixWritten(e);
      case Field(_, _) => PostfixWritten(e);
      case Cast(_, _) => PostfixWritten(e);
      case _ =>
    }
  }

  lemma {:induction false} BinaryWritten(e: Expr)
    requires e.Binary? && ProperExpr(e)
    ensures GoodExpr(FormOf(e)) && ExprTree(FormOf(e)) == e
    decreases e, 0
  {
    hide At, Level, LevelOf;
    ExprWritten(e.lhs);
    ExprWritten(e.rhs);
    AtGood(FormOf(e.lhs), LevelOf(e.op));
    AtGood(FormOf(e.rhs), LevelOf(e.op) + 1);
  }

  lemma {:induction false} PostfixWritten(e: Expr)
    requires (e.Call? || e.Index? || e.Field? || e.Cast?) && ProperExpr(e)
    ensures GoodExpr(FormOf(e)) && ExprTree(FormOf(e)) == e
    decreases e, 0
  {
    hide At, Level, ProperType, ArgsTree, GoodArgs, FormsOf, ProperArgs;
    var first := if e.Call? then e.callee else if e.Cast? then e.operand else e.base;
    ExprWritten(first);
    AtGood(FormOf(first), 11);
    if e.Call? {
      ArgsWritten(e.args);
    } else if e.Index? {
      ExprWritten(e.index);
    }
  }

  lemma {:induction false} ArgsWritten(args: seq<Expr>)
    requires ProperArgs(args)
    ensures GoodArgs(FormsOf(args)) && ArgsTree(FormsOf(args)) == args
    decreases args
  {
    hide GoodExpr, ExprTree, FormOf, ProperExpr;
    if args != [] {
      ExprWritten(args[0]);
      ArgsWritten(args[1..]);
      assert FormsOf(args)[1..] == FormsOf(args[1..]);
    }
  }

  lemma {:induction false} TreeProper(f: ExprForm)
    requires GoodExpr(f)
    ensures ProperExpr(ExprTree(f))
    decreases f
  {
    match f
    case AtomF(_) =>
    case ParenF(x) => TreeProper(x);
    case UnaryF(_, x) => TreeProper(x);
    case SizeOfF(_) =>
    case BinaryF(_, l, r) =>
      TreeProper(l);
      TreeProper(r);
    case CallF(c, args) =>
      TreeProper(c);
      ArgsProper(args);
    case IndexF(b, i) =>
      TreeProper(b);
      TreeProper(i);
    case FieldF(b, _) => TreeProper(b);
    case CastF(x, _) => TreeProper(x);
  }

  lemma {:induction false} ArgsProper(args: seq<ExprForm>)
    requires GoodArgs(args)
    ensures ProperArgs(ArgsTree(args))
    decreases args
  {
    hide GoodExpr, ExprTree, ProperExpr;
    if args != [] {
      TreeProper(args[0]);
      ArgsProper(args[1..]);
      assert ArgsTree(args)[1..] == ArgsTree(args[1..]);
    }
  }

  // --------------------------------------------------------------- statements

  predicate ProperInit(e: Option<Expr>) {
    e.Some? ==> ProperExpr(e.value)
  }

  predicate ProperStmt(s: Stmt)
    decreases s, 0
  {
    match s
    case NoStmt => false
    case Block(ss) => ProperStmts(ss)
    case Var(_, t, _, init) => ProperType(t) && ProperInit(init)
    case If(c, thn, els) =>
      && ProperExpr(c) && ProperStmts(thn)
      && (els.Some? ==> (els.value.Block? || els.value.If?) && ProperStmt(els.value))
    case While(c, body) => ProperExpr(c) && ProperStmts(body)
    case Match(e, arms) => ProperExpr(e) && ProperArms(arms)
    case Return(e) => ProperInit(e)
    case ExprStmt(e) => ProperExpr(e)
    case Assign(t, op, r) => ProperExpr(t) && AssignOp(op) && ProperExpr(r)
    case _ => true
  }

  predicate ProperStmts(ss: seq<Stmt>)
    decreases ss, 0
  {
    ss == [] || (ProperStmt(ss[0]) && ProperStmts(ss[1..]))
  }

  /** At least one label, and each an integer, a character, a name or `_`. */
  predicate ProperLabels(ls: seq<Option<Expr>>) {
    ls != [] && (ls[0].Some? ==> IsLabelAtom(ls[0].value)) && (|ls| > 1 ==> ProperLabels(ls[1..]))
  }

  predicate ProperArms(arms: seq<Arm>)
    decreases arms, 0
  {
    arms == [] || (ProperLabels(arms[0].labels) && ProperStmt(arms[0].body) && ProperArms(arms[1..]))
  }

  function InitForm(e: Option<Expr>): Option<ExprForm> {
    if e.None? then None else Some(FormOf(e.value))
  }

  function LabelFormsOf(ls: seq<Option<Expr>>): (r: seq<Option<ExprForm>>)
    ensures |r| == |ls|
    ensures forall i :: 0 <= i < |ls| ==> r[i] == if ls[i].None? then None else Some(AtomF(ls[i].value))
  {
    seq(|ls|, i requires 0 <= i < |ls| => if ls[i].None? then None else Some(AtomF(ls[i].value)))
  }

  function StmtFormOf(s: Stmt): StmtForm
    decreases s, 0
  {
    match s
    case NoStmt => EmptyF
    case Block(ss) => BlockF(StmtFormsOf(ss))
    case Var(isMut, t, x, init) => VarF(Param(isMut, t, x), InitForm(init))
    case If(c, thn, els) =>
      IfF(FormOf(c), StmtFormsOf(thn), if els.None? then None else Some(StmtFormOf(els.value)))
    case While(c, body) => WhileF(FormOf(c), StmtFormsOf(body))
    case Match(e, arms) => MatchF(FormOf(e), ArmFormsOf(arms))
    case Return(e) => ReturnF(InitForm(e))
    case Break => BreakF
    case Continue => ContinueF
    case ExprStmt(e) => ExprF(FormOf(e))
    case Assign(t, op, r) => AssignF(FormOf(t), op, FormOf(r))
    case Empty => EmptyF
  }

  function StmtFormsOf(ss: seq<Stmt>): seq<StmtForm>
    decreases ss, 0
  {
    if ss == [] then [] else [StmtFormOf(ss[0])] + StmtFormsOf(ss[1..])
  }

  function ArmFormsOf(arms: seq<Arm>): seq<ArmForm>
    decreases arms, 0
  {
    if arms == [] then [] else [ArmForm(LabelFormsOf(arms[0].labels), StmtFormOf(arms[0].body))] + ArmFormsOf(arms[1..])
  }

  lemma InitWritten(e: Option<Expr>)
    requires ProperInit(e)
    ensures GoodInit(InitForm(e)) && InitTree(InitForm(e)) == e
  {
    hide GoodExpr, ExprTree, FormOf, ProperExpr;
    if e.Some? {
      ExprWritten(e.value);
    }
  }

  lemma {:induction false} LabelsWritten(ls: seq<Option<Expr>>)
    requires ProperLabels(ls)
    ensures GoodLabels(LabelFormsOf(ls), true) && LabelsTree(LabelFormsOf(ls)) == ls
  {
    if |ls| > 1 {
      LabelsWritten(ls[1..]);
      assert LabelFormsOf(ls)[1..] == LabelFormsOf(ls[1..]);
    }
  }

  lemma {:induction false} LabelsProper(ls: seq<Option<ExprForm>>)
    requires GoodLabels(ls, true)
    ensures ProperLabels(LabelsTree(ls))
  {
    if |ls| > 1 {
      LabelsProper(ls[1..]);
      assert LabelsTree(ls)[1..] == LabelsTree(ls[1..]);
    }
  }

  lemma {:induction false} StmtWritten(s: Stmt)
    requires ProperStmt(s)
    ensures GoodStmt(StmtFormOf(s), true) && StmtTree(StmtFormOf(s)) == s
    decreases s, 0
  {
    hide GoodExpr, ExprTree, FormOf, ProperExpr, ProperInit, InitForm, GoodInit, InitTree, ProperType;
    match s {
      case Block(ss) => StmtsWritten(ss);
      case Var(_, _, _, init) => InitWritten(init);
      case If(c, thn, els) =>
        ExprWritten(c);
        StmtsWritten(thn);
        if els.Some? {
          StmtWritten(els.value);
        }
      case While(c, body) =>
        ExprWritten(c);
        StmtsWritten(body);
      case Match(e, arms) =>
        ExprWritten(e);
        ArmsWritten(arms);
      case Return(e) => InitWritten(e);
      case ExprStmt(e) => ExprWritten(e);
      case Assign(t, _, r) =>
        ExprWritten(t);
        ExprWritten(r);
      case _ =>
    }
  }

  lemma {:induction false} StmtsWritten(ss: seq<Stmt>)
    requires ProperStmts(ss)
    ensures GoodStmts(StmtFormsOf(ss), true) && StmtsTree(StmtFormsOf(ss)) == ss
    decreases ss, 0
  {
    hide GoodStmt, StmtTree, StmtFormOf, ProperStmt;
    if ss != [] {
      StmtWritten(ss[0]);
      StmtsWritten(ss[1..]);
      assert StmtFormsOf(ss)[1..] == StmtFormsOf(ss[1..]);
    }
  }

  lemma {:induction false} ArmsWritten(arms: seq<Arm>)
    requires ProperArms(arms)
    ensures GoodArms(ArmFormsOf(arms), true) && ArmsTree(ArmFormsOf(arms)) == arms
    decreases arms, 0
  {
    hide GoodStmt, StmtTree, StmtFormOf, ProperStmt, GoodLabels, LabelsTree, LabelFormsOf, ProperLabels;
    if arms != [] {
      LabelsWritten(arms[0].labels);
      StmtWritten(arms[0].body);
      ArmsWritten(arms[1..]);
      assert ArmFormsOf(arms)[1..] == ArmFormsOf(arms[1..]);
    }
  }

  lemma InitProper(e: Option<ExprForm>)
    requires GoodInit(e)
    ensures ProperInit(InitTree(e))
  {
    hide GoodExpr, ExprTree, ProperExpr;
    if e.Some? {
      TreeProper(e.value);
    }
  }

  lemma {:induction false} StmtProper(f: StmtForm)
    requires GoodStmt(f, true)
    ensures ProperStmt(StmtTree(f))
    decreases f, 0
  {
    hide GoodExpr, ExprTree, ProperExpr, ProperInit, GoodInit, InitTree, ProperType;
    match f {
      case BlockF(ss) => StmtsProper(ss);
      case VarF(_, init) => InitProper(init);
      case IfF(c, thn, els) =>
        TreeProper(c);
        StmtsProper(thn);
        if els.Some? {
          StmtProper(els.value);
        }
      case WhileF(c, body) =>
        TreeProper(c);
        StmtsProper(body);
      case MatchF(e, arms) =>
        TreeProper(e);
        ArmsProperToo(arms);
      case ReturnF(e) => InitProper(e);
      case ExprF(e) => TreeProper(e);
      case AssignF(t, _, r) =>
        TreeProper(t);
        TreeProper(r);
      case _ =>
    }
  }

  lemma {:induction false} StmtsProper(fs: seq<StmtForm>)
    requires GoodStmts(fs, true)
    ensures ProperStmts(StmtsTree(fs))
    decreases fs, 0
  {
    hide GoodStmt, StmtTree, ProperStmt;
    if fs != [] {
      StmtProper(fs[0]);
      StmtsProper(fs[1..]);
      assert StmtsTree(fs)[1..] == StmtsTree(fs[1..]);
    }
  }

  lemma {:induction false} ArmsProperToo(arms: seq<ArmForm>)
    requires GoodArms(arms, true)
    ensures ProperArms(ArmsTree(arms))
    decreases arms, 0
  {
    hide GoodStmt, StmtTree, ProperStmt, GoodLabels, LabelsTree, ProperLabels;
    if arms != [] {
      LabelsProper(arms[0].labels);
      StmtProper(arms[0].body);
      ArmsProperToo(arms[1..]);
      assert ArmsTree(arms)[1..] == ArmsTree(arms[1..]);
    }
  }

  // -------------------------------------------------------------------- items

  predicate ProperFn(f: FnDecl, isExtern: bool) {
    && ProperParams(f.params) && (f.variadic ==> isExtern) && ProperType(f.ret) && f.body.None? == isExtern
    && (f.body.Some? ==> ProperStmts(f.body.value))
  }

  predicate ProperExterns(fs: seq<FnDecl>) {
    fs == [] || (ProperFn(fs[0], true) && ProperExterns(fs[1..]))
  }

  predicate ProperItem(it: Item) {
    match it
    case FnItem(f) => ProperFn(f, false)
    case StructItem(_, fields) => GoodFields(fields)
    case EnumItem(_, base, _) => IsCoreType(base)
    case GlobalItem(_, t, _, init) => ProperType(t) && (init.Some? ==> IsLiteral(init.value))
    case ExternItem(_, fns) => ProperExterns(fns)
  }

  predicate ProperItems(items: seq<Item>) {
    items == [] || (ProperItem(items[0]) && ProperItems(items[1..]))
  }

  function FnFormOf(f: FnDecl): FnForm {
    FnForm(f.name, f.params, f.variadic, Some(f.ret), if f.body.None? then None else Some(StmtFormsOf(f.body.value)))
  }

  function ExternFormsOf(fs: seq<FnDecl>): seq<FnForm> {
    if fs == [] then [] else [FnFormOf(fs[0])] + ExternFormsOf(fs[1..])
  }

  function ItemFormOf(it: Item): ItemForm {
    match it
    case FnItem(f) => FnF(FnFormOf(f))
    case StructItem(x, fields) => StructF(x, fields)
    case EnumItem(x, base, members) => EnumF(x, Some(Tok(base)), members, false)
    case GlobalItem(isMut, t, x, init) => GlobalF(Param(isMut, t, x), InitForm(init))
    case ExternItem(abi, fns) => ExternF(abi, ExternFormsOf(fns))
  }

  function ItemFormsOf(items: seq<Item>): seq<ItemForm> {
    if items == [] then [] else [ItemFormOf(items[0])] + ItemFormsOf(items[1..])
  }

  lemma FnWritten(f: FnDecl, isExtern: bool)
    requires ProperFn(f, isExtern)
    ensures GoodFn(FnFormOf(f), isExtern, true) && FnTree(FnFormOf(f)) == f
  {
    hide GoodStmts, StmtsTree, StmtFormsOf, ProperStmts, ProperType, ProperParams;
    if f.body.Some? {
      StmtsWritten(f.body.value);
    }
  }

  lemma {:induction false} ExternsWritten(fs: seq<FnDecl>)
    requires ProperExterns(fs)
    ensures GoodExterns(ExternFormsOf(fs), true) && ExternsTree(ExternFormsOf(fs)) == fs
  {
    hide GoodFn, FnTree, FnFormOf, ProperFn;
    if fs != [] {
      FnWritten(fs[0], true);
      ExternsWritten(fs[1..]);
      assert ExternFormsOf(fs)[1..] == ExternFormsOf(fs[1..]);
    }
  }

  lemma ItemWritten(it: Item)
    requires ProperItem(it)
    ensures GoodItem(ItemFormOf(it), true) && ItemTree(ItemFormOf(it)) == it
  {
    hide GoodFn, FnTree, FnFormOf, ProperFn, ProperType, GoodFields, IsCoreType, GoodExterns, ExternsTree,
        ExternFormsOf;
    hide ProperExterns;
    match it
    case FnItem(f) => FnWritten(f, false);
    case ExternItem(_, fns) => ExternsWritten(fns);
    case _ =>
  }

  /** Writing a program's tree and reading the tree off the derivation gives it back. */
  lemma {:induction false} ItemsWritten(items: seq<Item>)
    requires ProperItems(items)
    ensures GoodItems(ItemFormsOf(items), true) && ItemsTree(ItemFormsOf(items)) == items
  {
    hide GoodItem, ItemTree, ItemFormOf, ProperItem;
    if items != [] {
      ItemWritten(items[0]);
      ItemsWritten(items[1..]);
      assert ItemFormsOf(items)[1..] == ItemFormsOf(items[1..]);
    }
  }

  lemma FnProper(f: FnForm, isExtern: bool)
    requires GoodFn(f, isExtern, true)
    ensures ProperFn(FnTree(f), isExtern)
  {
    hide GoodStmts, StmtsTree, ProperStmts, ProperParams;
    if f.body.Some? {
      StmtsProper(f.body.value);
    }
  }

  lemma {:induction false} ExternsProper(fs: seq<FnForm>)
    requires GoodExterns(fs, true)
    ensures ProperExterns(ExternsTree(fs))
  {
    hide GoodFn, FnTree, ProperFn;
    if fs != [] {
      FnProper(fs[0], true);
      ExternsProper(fs[1..]);
      assert ExternsTree(fs)[1..] == ExternsTree(fs[1..]);
    }
  }

  lemma ItemProper(f: ItemForm)
    requires GoodItem(f, true)
    ensures ProperItem(ItemTree(f))
  {
    hide GoodFn, FnTree, ProperFn, ProperType, GoodFields, GoodExterns, ExternsTree, ProperExterns;
    match f
    case FnF(fn) => FnProper(fn, false);
    case ExternF(_, fns) => ExternsProper(fns);
    case _ =>
  }

  lemma {:induction false} ItemsProper(fs: seq<ItemForm>)
    requires GoodItems(fs, true)
    ensures ProperItems(ItemsTree(fs))
  {
    hide GoodItem, ItemTree, ProperItem;
    if fs != [] {
      ItemProper(fs[0]);
      ItemsProper(fs[1..]);
      assert ItemsTree(fs)[1..] == ItemsTree(fs[1..]);
    }
  }

  /** What the parser returns without a report has nothing missing anywhere and only
      the operators, labels, literals and base types the grammar has. */
  lemma ParsedIsProper(ts: Parsing.Input)
    requires Parsing.Errors(Parsing.ParseProgram(ts).s) == 0
    ensures ProperItems(Parsing.ParseProgram(ts).v)
  {
    hide Parsing.ParseProgram, ItemsTree, GoodItems, ProperItems;
    var fs := ProgramSound.ProgramSound(ts);
    ItemsProper(fs);
  }

  /** Every proper program, written and tokenised, is parsed back to itself, if the
      writing stays within the nesting limit. */
  lemma WrittenReadsBack(ts: Parsing.Input, items: seq<Item>)
    requires ProperItems(items) && ProgramSound.Spells(ts, ItemFormsOf(items))
    ensures Parsing.Errors(Parsing.ParseProgram(ts).s) == 0 && Parsing.ParseProgram(ts).v == items
  {
    hide Parsing.ParseProgram, ItemsTree, GoodItems, ProperItems, ProgramSound.Spells, ItemFormsOf;
    ItemsWritten(items);
    ProgramSound.SpelledReads(ts, ItemFormsOf(items));
  }
}
