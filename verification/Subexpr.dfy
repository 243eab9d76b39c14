/** The operator precedence parser of lparser.c, and the unique tree that the priority table gives a token list. */
module Subexpr {
  import opened Common

  // ---- tokens and operators ----

  datatype BinOpr = Add | Sub | Mul | Div | Mod | Pow | Concat | Ne | Eq | Lt | Le | Gt | Ge | And | Or
  datatype UnOpr = Minus | Not | Len

  /** A minus sign is a token of its own: which operator it is depends on where it stands. */
  datatype Token = Name(n: nat) | Dash | Bang | Hash | Infix(op: BinOpr) | LParen | RParen | Other

  function GetUnOpr(t: Token): Option<UnOpr> {
    match t case Dash => Some(Minus) case Bang => Some(Not) case Hash => Some(Len) case _ => None
  }

  function GetBinOpr(t: Token): Option<BinOpr> {
    match t case Dash => Some(Sub) case Infix(op) => (if op == Sub then None else Some(op)) case _ => None
  }

  function UnToken(op: UnOpr): Token { match op case Minus => Dash case Not => Bang case Len => Hash }
  function BinToken(op: BinOpr): Token { if op == Sub then Dash else Infix(op) }

  function Left(op: BinOpr): nat {
    match op
    case Add | Sub => 6
    case Mul | Div | Mod => 7
    case Pow => 10
    case Concat => 5
    case Ne | Eq | Lt | Le | Gt | Ge => 3
    case And => 2
    case Or => 1
  }

  function Right(op: BinOpr): nat { if op == Pow then 9 else if op == Concat then 4 else Left(op) }

  const UNARY := 8
  const MAXLEVELS := 200   // LUAI_MAXCCALLS
  const TIGHT := 11

  /** The operator a token list starts with, if any; its end is an empty list. */
  function NextOp(ts: seq<Token>): Option<BinOpr> { if ts == [] then None else GetBinOpr(ts[0]) }

  /** Its left priority; 0 when there is none. */
  function NextLeft(ts: seq<Token>): nat { match NextOp(ts) case None => 0 case Some(op) => Left(op) }

  // ---- expressions, with the parentheses they are written with ----

  datatype Expr = Atom(n: nat) | Paren(e: Expr) | Un(uop: UnOpr, e: Expr) | Bin(op: BinOpr, l: Expr, r: Expr)

  function Yield(e: Expr): (r: seq<Token>)
    ensures |r| > 0
  {
    match e
    case Atom(n) => [Name(n)]
    case Paren(d) => [LParen] + Yield(d) + [RParen]
    case Un(op, d) => [UnToken(op)] + Yield(d)
    case Bin(op, l, r) => Yield(l) + [BinToken(op)] + Yield(r)
  }

  function Min(a: nat, b: nat): nat { if a < b then a else b }

  /** The highest left priority of an operator that can follow e and not be drawn into its last operand. */
  function Ends(e: Expr): nat {
    match e
    case Atom(_) => TIGHT
    case Paren(_) => TIGHT
    case Un(_, d) => Min(UNARY, Ends(d))
    case Bin(op, _, r) => Min(Right(op), Ends(r))
  }

  /** e has the shape that the priorities ask for, all its operators that are not in parentheses being above the limit. */
  predicate Shaped(e: Expr, limit: nat) {
    match e
    case Atom(_) => true
    case Paren(d) => Shaped(d, 0)
    case Un(_, d) => Shaped(d, UNARY)
    case Bin(op, l, r) => Left(op) > limit && Shaped(l, limit) && Left(op) <= Ends(l) && Shaped(r, Right(op))
  }

  /** How many calls of subexpr are active at once while e is read. */
  function Levels(e: Expr): nat {
    match e
    case Atom(_) => 1
    case Paren(d) => 1 + Levels(d)
    case Un(_, d) => 1 + Levels(d)
    case Bin(_, l, r) => if Levels(l) > 1 + Levels(r) then Levels(l) else 1 + Levels(r)
  }

  // ---- the parser, on token lists ----

  datatype Parsed = Ok(e: Expr, rest: seq<Token>) | Err(msg: string)

  /** subexpr, with calls already active and room for max of them. */
  function Parse(ts: seq<Token>, limit: nat, calls: nat, max: nat): (r: Parsed)
    ensures r.Ok? ==> |r.rest| < |ts|
    decreases |ts|, 2
  {
    if calls + 1 > max then Err("chunk has too many syntax levels")
    else
      match Operand(ts, calls + 1, max)
      case Err(msg) => Err(msg)
      case Ok(e, rest) => Operators(e, rest, limit, calls + 1, max)
  }

  /** The part before the loop: a prefix operator and its operand, or a simple expression. */
  function Operand(ts: seq<Token>, calls: nat, max: nat): (r: Parsed)
    ensures r.Ok? ==> |r.rest| < |ts|
    decreases |ts|, 1
  {
    if ts == [] then Err("unexpected symbol")
    else if GetUnOpr(ts[0]).Some? then
      match Parse(ts[1..], UNARY, calls, max)
      case Err(msg) => Err(msg)
      case Ok(e, rest) => Ok(Un(GetUnOpr(ts[0]).value, e), rest)
    else if ts[0].Name? then Ok(Atom(ts[0].n), ts[1..])
    else if ts[0] == LParen then
      match Parse(ts[1..], 0, calls, max)
      case Err(msg) => Err(msg)
      case Ok(e, rest) => if rest != [] && rest[0] == RParen then Ok(Paren(e), rest[1..]) else Err("')' expected")
    else Err("unexpected symbol")
  }

  /** The loop: operators above the limit, each with its right operand. */
  function Operators(e: Expr, ts: seq<Token>, limit: nat, calls: nat, max: nat): (r: Parsed)
    ensures r.Ok? ==> |r.rest| <= |ts|
    decreases |ts|, 0
  {
    match NextOp(ts)
    case None => Ok(e, ts)
    case Some(op) =>
      if Left(op) <= limit then Ok(e, ts)
      else
        match Parse(ts[1..], Right(op), calls, max)
        case Err(msg) => Err(msg)
        case Ok(r, rest) => Operators(Bin(op, e, r), rest, limit, calls, max)
  }

  // ---- the parser, on a stream ----

  datatype Res = Good(e: Expr) | Raised(msg: string)

  class LexState {
    const tokens: seq<Token>
    var pos: nat
    var nCcalls: nat

    constructor (tokens: seq<Token>)
      ensures this.tokens == tokens && pos == 0 && nCcalls == 0
    {
      this.tokens := tokens;
      pos, nCcalls := 0, 0;
    }

    function Rest(): seq<Token>
      requires pos <= |tokens|
      reads this
    {
      tokens[pos..]
    }

    /** What the recursive functions say about the rest of the stream is what happened. */
    ghost predicate Did(spec: Parsed, r: Res)
      reads this
    {
      pos <= |tokens| &&
      match spec
      case Err(msg) => r == Raised(msg)
      case Ok(e, rest) => r == Good(e) && Rest() == rest
    }

    method Next()
      requires pos < |tokens|
      modifies this`pos
      ensures pos == old(pos) + 1 && Rest() == old(Rest())[1..]
    {
      pos := pos + 1;
    }

    /** simpleexp, for names and other operands of one token, and for parentheses. */
    method SimpleExp() returns (r: Res)
      requires pos <= |tokens| && (pos < |tokens| ==> GetUnOpr(tokens[pos]).None?)
      modifies this
      ensures Did(Operand(old(Rest()), old(nCcalls), MAXLEVELS), r) &&
        (r.Good? ==> nCcalls == old(nCcalls) && pos > old(pos))
      decreases |tokens| - pos, 0
    {
      if pos == |tokens| { return Raised("unexpected symbol"); }
      match tokens[pos] {
        case Name(n) =>
          Next();
          r := Good(Atom(n));
        case LParen =>
          Next();
          r := SubExpr(0);
          if r.Raised? { return; }
          if pos == |tokens| || tokens[pos] != RParen { return Raised("')' expected"); }
          Next();
          r := Good(Paren(r.e));
        case _ => r := Raised("unexpected symbol");
      }
    }

    /** subexpr; the next operator, which it returns in the source, is the first of the rest. */
    method SubExpr(limit: nat) returns (r: Res)
      requires pos <= |tokens|
      modifies this
      ensures Did(Parse(old(Rest()), limit, old(nCcalls), MAXLEVELS), r) &&
        (r.Good? ==> nCcalls == old(nCcalls) && pos > old(pos))
      decreases |tokens| - pos, 1
    {
      ghost var spec, ts := Parse(Rest(), limit, nCcalls, MAXLEVELS), Rest();
      nCcalls := nCcalls + 1;
      if nCcalls > MAXLEVELS { return Raised("chunk has too many syntax levels"); }
      var uop := if pos < |tokens| then GetUnOpr(tokens[pos]) else None;
      if uop.Some? {
        Next();
        r := SubExpr(UNARY);
        if r.Raised? { return; }
        r := Good(Un(uop.value, r.e));
      } else {
        r := SimpleExp();
        if r.Raised? { return; }
      }
      assert Did(Operand(ts, nCcalls, MAXLEVELS), r);
      var op := NextOp(Rest());
      while op.Some? && Left(op.value) > limit
        invariant old(pos) < pos <= |tokens| && r.Good? && nCcalls == old(nCcalls) + 1 && op == NextOp(Rest())
        invariant Operators(r.e, Rest(), limit, nCcalls, MAXLEVELS) == spec
        decreases |tokens| - pos
      {
        Next();
        var v2 := SubExpr(Right(op.value));
        if v2.Raised? { return v2; }
        r := Good(Bin(op.value, r.e, v2.e));
        op := NextOp(Rest());
      }
      nCcalls := nCcalls - 1;
    }
  }

  // ---- every tree of the right shape is read, and nothing else ----

  /** The loop ends at an operator that is not above the limit. */
  lemma OperatorsEnd(e: Expr, rest: seq<Token>, limit: nat, calls: nat, max: nat)
    requires NextLeft(rest) <= limit
    ensures Operators(e, rest, limit, calls, max) == Ok(e, rest)
  {
  }

  /** The loop goes once around for an operator and its right operand. */
  lemma OperatorsStep(l: Expr, op: BinOpr, r: Expr, more: seq<Token>, rest: seq<Token>, limit: nat, calls: nat,
    max: nat)
    requires Left(op) > limit
    ensures Parse(more, Right(op), calls, max) == Ok(r, rest) ==>
      Operators(l, [BinToken(op)] + more, limit, calls, max) == Operators(Bin(op, l, r), rest, limit, calls, max)
    ensures Parse(more, Right(op), calls, max).Err? ==>
      Operators(l, [BinToken(op)] + more, limit, calls, max) == Err(Parse(more, Right(op), calls, max).msg)
  {
    hide Parse;
    assert ([BinToken(op)] + more)[1..] == more;
  }

  /** After an operand that can be read, the loop. */
  lemma ParseOperand(ts: seq<Token>, e: Expr, rest: seq<Token>, limit: nat, calls: nat, max: nat)
    requires calls < max && Operand(ts, calls + 1, max) == Ok(e, rest)
    ensures Parse(ts, limit, calls, max) == Operators(e, rest, limit, calls + 1, max)
  {
  }

  ghost function Deep(e: Expr, rest: seq<Token>, limit: nat, calls: nat, max: nat): Parsed {
    if calls + Levels(e) > max then Err("chunk has too many syntax levels")
      else Operators(e, rest, limit, calls + 1, max)
  }

  lemma ParenYield(d: Expr, rest: seq<Token>, limit: nat, calls: nat, max: nat)
    requires Parse(Yield(d) + ([RParen] + rest), 0, calls + 1, max) == Deep(d, [RParen] + rest, 0, calls + 1, max)
    ensures Parse(Yield(Paren(d)) + rest, limit, calls, max) == Deep(Paren(d), rest, limit, calls, max)
  {
    var inner := Yield(d) + ([RParen] + rest);
    var ts := Yield(Paren(d)) + rest;
    assert ts == [LParen] + inner && ts[1..] == inner;
    assert ([RParen] + rest)[1..] == rest;
    OperatorsEnd(d, [RParen] + rest, 0, calls + 2, max);
    hide Operators;
    if calls < max && calls + 1 + Levels(d) <= max { ParseOperand(ts, Paren(d), rest, limit, calls, max); }
  }

  lemma UnYield(op: UnOpr, d: Expr, rest: seq<Token>, limit: nat, calls: nat, max: nat)
    requires NextLeft(rest) <= UNARY && Parse(Yield(d) + rest, UNARY, calls + 1, max) == Deep(d, rest, UNARY,
      calls + 1, max)
    ensures Parse(Yield(Un(op, d)) + rest, limit, calls, max) == Deep(Un(op, d), rest, limit, calls, max)
  {
    var ts := Yield(Un(op, d)) + rest;
    assert ts == [UnToken(op)] + (Yield(d) + rest) && ts[1..] == Yield(d) + rest;
    OperatorsEnd(d, rest, UNARY, calls + 2, max);
    hide Operators;
    if calls < max && calls + 1 + Levels(d) <= max { ParseOperand(ts, Un(op, d), rest, limit, calls, max); }
  }

  /** Reading what e is written as gives e, and goes on with the operators after it, unless it is too deep. */
  lemma {:induction false} ParseYield(e: Expr, rest: seq<Token>, limit: nat, calls: nat, max: nat)
    requires Shaped(e, limit) && NextLeft(rest) <= Ends(e)
    ensures Parse(Yield(e) + rest, limit, calls, max) == Deep(e, rest, limit, calls, max)
    decreases e
  {
    match e
    case Atom(n) =>
      var ts := Yield(e) + rest;
      assert ts[1..] == rest;
      if calls < max { ParseOperand(ts, e, rest, limit, calls, max); }
    case Paren(d) =>
      ParseYield(d, [RParen] + rest, 0, calls + 1, max);
      ParenYield(d, rest, limit, calls, max);
    case Un(op, d) =>
      ParseYield(d, rest, UNARY, calls + 1, max);
      UnYield(op, d, rest, limit, calls, max);
    case Bin(op, l, r) =>
      var more := Yield(r) + rest;
      BinYield(op, l, r, rest);
      ParseYield(l, [BinToken(op)] + more, limit, calls, max);
      ParseYield(r, rest, Right(op), calls + 1, max);
      OperatorsEnd(r, rest, Right(op), calls + 2, max);
      OperatorsStep(l, op, r, more, rest, limit, calls + 1, max);
  }

  lemma BinYield(op: BinOpr, l: Expr, r: Expr, rest: seq<Token>)
    ensures Yield(Bin(op, l, r)) + rest == Yield(l) + ([BinToken(op)] + (Yield(r) + rest))
    ensures NextLeft([BinToken(op)] + (Yield(r) + rest)) == Left(op)
  {
  }

  /** What subexpr returns was written there, has the right shape, and it stopped at the first operator not above the limit. */
  ghost predicate Reading(ts: seq<Token>, limit: nat, e: Expr, rest: seq<Token>) {
    ts == Yield(e) + rest && Shaped(e, limit) && NextLeft(rest) <= Ends(e) && NextLeft(rest) <= limit
  }

  lemma {:induction false} ParseSound(ts: seq<Token>, limit: nat, calls: nat, max: nat)
    ensures var r := Parse(ts, limit, calls, max); r.Ok? ==>
      Reading(ts, limit, r.e, r.rest) && calls + Levels(r.e) <= max
    decreases |ts|, 2
  {
    if calls + 1 <= max {
      OperandSound(ts, calls + 1, max);
      var r := Operand(ts, calls + 1, max);
      if r.Ok? { OperatorsSound(r.e, r.rest, limit, calls + 1, max); }
    }
  }

  lemma {:induction false} OperandSound(ts: seq<Token>, calls: nat, max: nat)
    requires calls <= max
    ensures var r := Operand(ts, calls, max); r.Ok? ==> ts == Yield(r.e) + r.rest && Shaped(r.e, 100)
    ensures var r := Operand(ts, calls, max); r.Ok? ==> NextLeft(r.rest) <= Ends(r.e) && calls - 1 + Levels(r.e) <= max
    ensures var r := Operand(ts, calls, max); r.Ok? ==> !r.e.Bin?
    decreases |ts|, 1
  {
    if ts == [] { return; }
    assert ts == [ts[0]] + ts[1..];
    if GetUnOpr(ts[0]).Some? {
      ParseSound(ts[1..], UNARY, calls, max);
    } else if ts[0] == LParen {
      ParseSound(ts[1..], 0, calls, max);
      var r := Parse(ts[1..], 0, calls, max);
      if r.Ok? && r.rest != [] && r.rest[0] == RParen {
        assert r.rest == [RParen] + r.rest[1..];
        assert ts == [LParen] + Yield(r.e) + [RParen] + r.rest[1..];
      }
    }
  }

  lemma {:induction false} OperatorsSound(e: Expr, ts: seq<Token>, limit: nat, calls: nat, max: nat)
    requires calls <= max && Shaped(e, limit) && NextLeft(ts) <= Ends(e) && calls - 1 + Levels(e) <= max
    ensures var r := Operators(e, ts, limit, calls, max); r.Ok? ==>
      Reading(Yield(e) + ts, limit, r.e, r.rest) && calls - 1 + Levels(r.e) <= max
    decreases |ts|, 0
  {
    hide Parse;
    var op := NextOp(ts);
    if op.Some? && Left(op.value) > limit {
      ParseSound(ts[1..], Right(op.value), calls, max);
      var r := Parse(ts[1..], Right(op.value), calls, max);
      if r.Ok? {
        var b := Bin(op.value, e, r.e);
        assert ts == [BinToken(op.value)] + ts[1..];
        assert Yield(b) + r.rest == Yield(e) + ts;
        OperatorsSound(b, r.rest, limit, calls, max);
      }
    }
  }

  /** subexpr finds exactly the readings there are that are not too deep: it is sound, complete, and there is at most one. */
  lemma ParseIff(ts: seq<Token>, limit: nat, calls: nat, e: Expr, rest: seq<Token>, max: nat)
    ensures Parse(ts, limit, calls, max) == Ok(e, rest) <==> Reading(ts, limit, e, rest) && calls + Levels(e) <= max
  {
    ParseSound(ts, limit, calls, max);
    if Reading(ts, limit, e, rest) { ParseYield(e, rest, limit, calls, max); }
  }

  /** The grammar is unambiguous, however deeply expressions are nested. */
  lemma OneReading(ts: seq<Token>, limit: nat, e: Expr, rest: seq<Token>, e': Expr, rest': seq<Token>)
    requires Reading(ts, limit, e, rest) && Reading(ts, limit, e', rest')
    ensures e == e' && rest == rest'
  {
    var max := Levels(e) + Levels(e');
    ParseIff(ts, limit, 0, e, rest, max);
    ParseIff(ts, limit, 0, e', rest', max);
  }

  // ---- printing with as few parentheses as possible ----

  /** An operator tree: an expression without parentheses. */
  predicate Bare(e: Expr) {
    match e
    case Atom(_) => true
    case Paren(_) => false
    case Un(_, d) => Bare(d)
    case Bin(_, l, r) => Bare(l) && Bare(r)
  }

  /** The tree that an expression is written for. */
  function Tree(e: Expr): Expr {
    match e
    case Atom(_) => e
    case Paren(d) => Tree(d)
    case Un(op, d) => Un(op, Tree(d))
    case Bin(op, l, r) => Bin(op, Tree(l), Tree(r))
  }

  /** An operand gets parentheses only when it would be read differently without them. */
  function Guard(e: Expr, limit: nat): Expr { if Shaped(e, limit) then e else Paren(e) }

  function GuardLeft(e: Expr, op: BinOpr): Expr { if Left(op) <= Ends(e) then e else Paren(e) }

  function Show(t: Expr): Expr {
    match t
    case Atom(_) => t
    case Paren(d) => Show(d)
    case Un(op, d) => Un(op, Guard(Show(d), UNARY))
    case Bin(op, l, r) => Bin(op, GuardLeft(Show(l), op), Guard(Show(r), Right(op)))
  }

  lemma {:induction false} ShowShaped(t: Expr)
    ensures Shaped(Show(t), 0) && Tree(Show(t)) == Tree(t)
    decreases t
  {
    match t
    case Atom(_) =>
    case Paren(d) => ShowShaped(d);
    case Un(op, d) => ShowShaped(d);
    case Bin(op, l, r) =>
      ShowShaped(l);
      ShowShaped(r);
  }

  lemma TreeBare(t: Expr)
    requires Bare(t)
    ensures Tree(t) == t
  {
  }

  /**
   * Printing an operator tree and parsing the print gives the tree back, whatever comes after that does not
   * continue it; only a tree nested too deeply is refused.
   */
  lemma PrintParse(t: Expr, rest: seq<Token>)
    requires Bare(t) && NextOp(rest) == None
    ensures Parse(Yield(Show(t)) + rest, 0, 0, MAXLEVELS) == if Levels(Show(t)) > MAXLEVELS
      then Err("chunk has too many syntax levels") else Ok(Show(t), rest)
    ensures Tree(Show(t)) == t
  {
    ShowShaped(t);
    TreeBare(t);
    ParseYield(Show(t), rest, 0, 0, MAXLEVELS);
  }

  function Parens(e: Expr): nat {
    match e
    case Atom(_) => 0
    case Paren(d) => 1 + Parens(d)
    case Un(_, d) => Parens(d)
    case Bin(_, l, r) => Parens(l) + Parens(r)
  }

  /** An expression whose first operator is above the limit has all its open operators above it. */
  lemma {:induction false} ShapedAbove(e: Expr, limit: nat)
    requires Shaped(e, 0) && (e.Bin? ==> Left(e.op) > limit)
    ensures Shaped(e, limit)
    decreases e
  {
    if e.Bin? && e.l.Bin? { ShapedAbove(e.l, limit); }
  }

  /** Operators of the priorities asked for do not let anything into their right operand but what belongs there. */
  lemma {:induction false} EndsAbove(e: Expr, limit: nat)
    requires Shaped(e, limit)
    ensures Ends(e) >= Min(limit, UNARY)
    decreases e
  {
    match e
    case Atom(_) =>
    case Paren(_) =>
    case Un(_, d) => EndsAbove(d, UNARY);
    case Bin(op, _, r) => EndsAbove(r, Right(op));
  }

  /** As a left operand it needs parentheses in the print only if it has them. */
  lemma LeftOpen(l: Expr, op: BinOpr)
    requires Shaped(l, 0) && !l.Paren? && Left(op) <= Ends(l)
    ensures Left(op) <= Ends(Show(Tree(l)))
  {
    ShowShaped(Tree(l));
    match l
    case Atom(_) =>
    case Un(_, d) => EndsAbove(Guard(Show(Tree(d)), UNARY), UNARY);
    case Bin(op2, _, r) => EndsAbove(Guard(Show(Tree(r)), Right(op2)), Right(op2));
  }

  lemma {:induction false} Fewest(e: Expr, limit: nat)
    requires Shaped(e, limit)
    ensures Parens(Guard(Show(Tree(e)), limit)) <= Parens(e)
    ensures !e.Paren? ==> Shaped(Show(Tree(e)), limit)
    decreases e
  {
    ShowShaped(Tree(e));
    match e
    case Atom(_) =>
    case Paren(d) => Fewest(d, 0);
    case Un(_, d) => Fewest(d, UNARY);
    case Bin(op, l, r) =>
      Fewest(l, limit);
      Fewest(r, Right(op));
      ShapedAbove(Show(Tree(e)), limit);
      ShapedLess(l, limit);
      if l.Paren? { Fewest(l.e, 0); ShowShaped(Tree(l.e)); } else { LeftOpen(l, op); }
  }

  lemma {:induction false} ShapedLess(e: Expr, limit: nat)
    requires Shaped(e, limit)
    ensures Shaped(e, 0)
    decreases e
  {
    if e.Bin? { ShapedLess(e.l, limit); }
  }

  /** No expression that is read as the tree t is written with fewer parentheses than the print. */
  lemma FewestParens(t: Expr, e: Expr)
    requires Shaped(e, 0) && Tree(e) == t
    ensures Parens(Show(t)) <= Parens(e)
  {
    ShowShaped(t);
    Fewest(e, 0);
  }

  /** A right operand printed with parentheses needs them: without them it is not what is read there. */
  lemma GuardNeeded(e: Expr, limit: nat, rest: seq<Token>, calls: nat)
    requires Guard(e, limit) != e
    ensures Parse(Yield(e) + rest, limit, calls, MAXLEVELS) != Ok(e, rest)
  {
    ParseIff(Yield(e) + rest, limit, calls, e, rest, MAXLEVELS);
  }

  /** A left operand printed with parentheses needs them: without them the operator goes to its last operand. */
  lemma GuardLeftNeeded(e: Expr, op: BinOpr, r: Expr, limit: nat, rest: seq<Token>, calls: nat)
    requires GuardLeft(e, op) != e
    ensures Parse(Yield(Bin(op, e, r)) + rest, limit, calls, MAXLEVELS) != Ok(Bin(op, e, r), rest)
  {
    ParseIff(Yield(Bin(op, e, r)) + rest, limit, calls, Bin(op, e, r), rest, MAXLEVELS);
  }

  // ---- the precedence levels of the manual ----

  /** Section 2.5.6 of the Lua 5.1 Reference Manual, from lower to higher; prefix operators stand between the last two. */
  const LEVELS: seq<set<BinOpr>> :=
    [{Or}, {And}, {Lt, Gt, Le, Ge, Ne, Eq}, {Concat}, {Add, Sub}, {Mul, Div, Mod}, {Pow}]

  /** Every binary operator is on one level. */
  lemma OneLevel(op: BinOpr, i: nat, j: nat)
    requires i < 7 && j < 7
    ensures op in LEVELS[i] && op in LEVELS[j] ==> i == j
    ensures exists k :: 0 <= k < 7 && op in LEVELS[k]
  {
    if op in LEVELS[i] { LevelLeft(op, i); }
    if op in LEVELS[j] { LevelLeft(op, j); }
    LevelHas(op);
  }

  lemma LevelHas(op: BinOpr)
    ensures exists k :: 0 <= k < 7 && op in LEVELS[k]
  {
    match op
    case Or => assert op in LEVELS[0];
    case And => assert op in LEVELS[1];
    case Lt | Gt | Le | Ge | Ne | Eq => assert op in LEVELS[2];
    case Concat => assert op in LEVELS[3];
    case Add | Sub => assert op in LEVELS[4];
    case Mul | Div | Mod => assert op in LEVELS[5];
    case Pow => assert op in LEVELS[6];
  }

  /** The left priorities rise with the levels. */
  lemma LevelLeft(op: BinOpr, i: nat)
    requires i < 7 && op in LEVELS[i]
    ensures Left(op) == if i < 3 then i + 1 else if i < 6 then i + 2 else 10
    ensures Right(op) == if op in {Pow, Concat} then Left(op) - 1 else Left(op)
  {
    assert LEVELS[0] == {Or} && LEVELS[1] == {And} && LEVELS[2] == {Lt, Gt, Le, Ge, Ne, Eq} && LEVELS[3] == {Concat};
    assert LEVELS[4] == {Add, Sub} && LEVELS[5] == {Mul, Div, Mod} && LEVELS[6] == {Pow};
  }

  lemma ReadsAs(ts: seq<Token>, e: Expr)
    requires ts == Yield(e) && Shaped(e, 0) && Levels(e) <= MAXLEVELS
    ensures Parse(ts, 0, 0, MAXLEVELS) == Ok(e, [])
  {
    hide Parse;
    assert ts == Yield(e) + [];
    ParseIff(ts, 0, 0, e, [], MAXLEVELS);
  }

  lemma ReadsBin(ts: seq<Token>, op: BinOpr, l: Expr, r: Expr)
    requires ts == Yield(l) + [BinToken(op)] + Yield(r) && Levels(l) <= 100 && Levels(r) <= 100
    requires Shaped(l, 0) && Left(op) <= Ends(l) && Shaped(r, Right(op))
    ensures Parse(ts, 0, 0, MAXLEVELS) == Ok(Bin(op, l, r), [])
  {
    hide Parse;
    ReadsAs(ts, Bin(op, l, r));
  }

  /** The pieces of small expressions. */
  lemma Small(a: BinOpr, x: nat, y: nat)
    ensures var e := Bin(a, Atom(x), Atom(y));
      Yield(e) == [Name(x), BinToken(a), Name(y)] && Levels(e) == 2 && Ends(e) == Right(a) && Shaped(e, 0) &&
      forall limit: nat :: Shaped(e, limit) <==> Left(a) > limit
  {
    assert Yield(Atom(x)) == [Name(x)] && Yield(Atom(y)) == [Name(y)];
    assert Levels(Atom(x)) == 1 && Levels(Atom(y)) == 1 && Ends(Atom(y)) == TIGHT;
    forall limit: nat ensures Shaped(Bin(a, Atom(x), Atom(y)), limit) <==> Left(a) > limit {
      assert Shaped(Atom(x), limit) && Shaped(Atom(y), Right(a)) && Ends(Atom(x)) == TIGHT;
    }
  }

  lemma SmallPrefix(u: UnOpr, x: nat)
    ensures var e := Un(u, Atom(x));
      Yield(e) == [UnToken(u), Name(x)] && Levels(e) == 2 && Ends(e) == UNARY && forall limit: nat :: Shaped(e, limit)
  {
    assert Yield(Atom(x)) == [Name(x)] && Levels(Atom(x)) == 1 && Ends(Atom(x)) == TIGHT;
    forall limit: nat ensures Shaped(Un(u, Atom(x)), limit) { assert Shaped(Atom(x), UNARY); }
  }

  lemma SmallParen(a: BinOpr, x: nat, y: nat)
    ensures var e := Paren(Bin(a, Atom(x), Atom(y)));
      Yield(e) == [LParen, Name(x), BinToken(a), Name(y), RParen] && Levels(e) == 3 && Ends(e) == TIGHT &&
      forall limit: nat :: Shaped(e, limit)
  {
    var b := Bin(a, Atom(x), Atom(y));
    Small(a, x, y);
    assert Yield(Paren(b)) == [LParen] + Yield(b) + [RParen];
    forall limit: nat ensures Shaped(Paren(b), limit) { assert Shaped(b, 0); }
  }

  lemma SmallAtom(x: nat)
    ensures Yield(Atom(x)) == [Name(x)] && Levels(Atom(x)) == 1 && Ends(Atom(x)) == TIGHT &&
      forall limit: nat :: Shaped(Atom(x), limit)
  {
  }

  /**
   x a y b z: the operator of the higher level takes its operands first; on one level the left one does, but for
   `^` and `..`, where the right one does.
   */
  lemma TwoOperators(x: nat, a: BinOpr, y: nat, b: BinOpr, z: nat, i: nat, j: nat)
    requires i < 7 && j < 7 && a in LEVELS[i] && b in LEVELS[j]
    ensures var ts := [Name(x), if a == Sub then Dash else Infix(a), Name(y), if b == Sub then Dash else Infix(b),
      Name(z)];
      && (i < j || (i == j && a in {Pow, Concat}) ==>
        Parse(ts, 0, 0, MAXLEVELS) == Ok(Bin(a, Atom(x), Bin(b, Atom(y), Atom(z))), []))
      && (i > j || (i == j && a !in {Pow, Concat}) ==>
        Parse(ts, 0, 0, MAXLEVELS) == Ok(Bin(b, Bin(a, Atom(x), Atom(y)), Atom(z)), []))
  {
    hide Parse, LEVELS, Yield, Levels, Ends, Shaped;
    LevelLeft(a, i);
    LevelLeft(b, j);
    SmallAtom(x);
    SmallAtom(z);
    Small(b, y, z);
    Small(a, x, y);
    var ts := [Name(x), BinToken(a), Name(y), BinToken(b), Name(z)];
    if i < j || (i == j && a in {Pow, Concat}) {
      ReadsBin(ts, a, Atom(x), Bin(b, Atom(y), Atom(z)));
    } else {
      ReadsBin(ts, b, Bin(a, Atom(x), Atom(y)), Atom(z));
    }
  }

  /** A prefix operator takes a power whole, of any other operation only the first operand, and after `^` all of its own. */
  lemma PrefixOperator(u: UnOpr, x: nat, b: BinOpr, y: nat)
    ensures var t := match u case Minus => Dash case Not => Bang case Len => Hash;
      var o := if b == Sub then Dash else Infix(b);
      && Parse([t, Name(x), o, Name(y)], 0, 0, MAXLEVELS) ==
        Ok(if b == Pow then Un(u, Bin(Pow, Atom(x), Atom(y))) else Bin(b, Un(u, Atom(x)), Atom(y)), [])
      && Parse([Name(x), o, t, Name(y)], 0, 0, MAXLEVELS) == Ok(Bin(b, Atom(x), Un(u, Atom(y))), [])
  {
    hide Parse, Yield, Levels, Ends, Shaped;
    var t, o := UnToken(u), BinToken(b);
    SmallAtom(x);
    SmallAtom(y);
    SmallPrefix(u, x);
    SmallPrefix(u, y);
    if b == Pow { ReadsPower(u, x, y); } else { ReadsBin([t, Name(x), o, Name(y)], b, Un(u, Atom(x)), Atom(y)); }
    ReadsBin([Name(x), o, t, Name(y)], b, Atom(x), Un(u, Atom(y)));
  }

  lemma ReadsPower(u: UnOpr, x: nat, y: nat)
    ensures Parse([UnToken(u), Name(x), Infix(Pow), Name(y)], 0, 0, MAXLEVELS) == Ok(Un(u, Bin(Pow, Atom(x), Atom(y))),
      [])
  {
    hide Parse;
    var p := Bin(Pow, Atom(x), Atom(y));
    Small(Pow, x, y);
    assert Shaped(p, UNARY);
    assert Yield(Un(u, p)) == [UnToken(u)] + Yield(p);
    ReadsAs([UnToken(u), Name(x), Infix(Pow), Name(y)], Un(u, p));
  }

  /** Parentheses decide against the levels. */
  lemma Parenthesised(x: nat, a: BinOpr, y: nat, b: BinOpr, z: nat)
    ensures var o, p := if a == Sub then Dash else Infix(a), if b == Sub then Dash else Infix(b);
      && Parse([LParen, Name(x), o, Name(y), RParen, p, Name(z)], 0, 0, MAXLEVELS) ==
        Ok(Bin(b, Paren(Bin(a, Atom(x), Atom(y))), Atom(z)), [])
      && Parse([Name(x), o, LParen, Name(y), p, Name(z), RParen], 0, 0, MAXLEVELS) ==
        Ok(Bin(a, Atom(x), Paren(Bin(b, Atom(y), Atom(z)))), [])
  {
    hide Parse, Yield, Levels, Ends, Shaped;
    var o, p := BinToken(a), BinToken(b);
    SmallAtom(x);
    SmallAtom(z);
    SmallParen(a, x, y);
    SmallParen(b, y, z);
    ReadsBin([LParen, Name(x), o, Name(y), RParen, p, Name(z)], b, Paren(Bin(a, Atom(x), Atom(y))), Atom(z));
    ReadsBin([Name(x), o, LParen, Name(y), p, Name(z), RParen], a, Atom(x), Paren(Bin(b, Atom(y), Atom(z))));
  }

  function Nested(n: nat, x: nat): Expr { if n == 0 then Atom(x) else Paren(Nested(n - 1, x)) }

  lemma {:induction false} NestedFacts(n: nat, x: nat)
    ensures Yield(Nested(n, x)) == seq(n, i => LParen) + [Name(x)] + seq(n, i => RParen)
    ensures Levels(Nested(n, x)) == n + 1 && Shaped(Nested(n, x), 0) && Ends(Nested(n, x)) == TIGHT
  {
    if n > 0 {
      NestedFacts(n - 1, x);
      assert seq(n, i => LParen) == [LParen] + seq(n - 1, i => LParen);
      assert seq(n, i => RParen) == seq(n - 1, i => RParen) + [RParen];
    }
  }

  /** LUAI_MAXCCALLS: 199 parentheses around a name are read, 200 are too many. */
  lemma NestingLimit(n: nat, x: nat)
    ensures var r := Parse(seq(n, i => LParen) + [Name(x)] + seq(n, i => RParen), 0, 0, MAXLEVELS);
      r == if n <= 199 then Ok(Nested(n, x), []) else Err("chunk has too many syntax levels")
  {
    hide Parse, Operators;
    NestedFacts(n, x);
    var e := Nested(n, x);
    assert Yield(e) + [] == Yield(e);
    ParseYield(e, [], 0, 0, MAXLEVELS);
    OperatorsEnd(e, [], 0, 1, MAXLEVELS);
  }
}
