/**
 * The Haskell syntax highlighter's token classifier: every lexical token kind
 * is mapped to zero or one display-colour category by a fixed, ordered chain
 * of membership tests in which the first match wins.
 *
 * The comment token kinds live in the parser definition, which is not part of
 * this model; the classifier therefore takes the comment set as a parameter
 * and every property below holds for any comment set whatsoever.
 */
module HaskellSyntaxHighlighter {

  /**
   * A lexical token kind, identified by its index in the platform's registry
   * of element types. Kinds are compared by identity, so two kinds are the
   * same exactly when their indices are. The kinds the classifier names get
   * the distinct indices below; every other index is some other kind the
   * lexer may produce (comments, whitespace, further symbols).
   */
  type TokenKind = nat

  // the platform's kind for a character the lexer cannot match
  const BadCharacter: TokenKind := 0

  // literals
  const StringLiteral: TokenKind := 1
  const CharacterLiteral: TokenKind := 2
  const Decimal: TokenKind := 3
  const Float: TokenKind := 4
  const Hexadecimal: TokenKind := 5
  const Octal: TokenKind := 6

  // reserved identifiers
  const Case: TokenKind := 7
  const Class: TokenKind := 8
  const Data: TokenKind := 9
  const Default: TokenKind := 10
  const Deriving: TokenKind := 11
  const Do: TokenKind := 12
  const Else: TokenKind := 13
  const Foreign: TokenKind := 14
  const If: TokenKind := 15
  const Import: TokenKind := 16
  const In: TokenKind := 17
  const Infix: TokenKind := 18
  const Infixl: TokenKind := 19
  const Infixr: TokenKind := 20
  const Instance: TokenKind := 21
  const Let: TokenKind := 22
  const Module: TokenKind := 23
  const Newtype: TokenKind := 24
  const Of: TokenKind := 25
  const Then: TokenKind := 26
  const Type: TokenKind := 27
  const Where: TokenKind := 28
  const Underscore: TokenKind := 29

  // reserved operators
  const DotDot: TokenKind := 30
  const Colon: TokenKind := 31
  const ColonColon: TokenKind := 32
  const DefinedBy: TokenKind := 33
  const Slash: TokenKind := 34
  const VerticalBar: TokenKind := 35
  const LeftArrow: TokenKind := 36
  const RightArrow: TokenKind := 37
  const At: TokenKind := 38
  const Tilde: TokenKind := 39
  const DoubleRightArrow: TokenKind := 40

  // special reserved operators
  const As: TokenKind := 41
  const Qualified: TokenKind := 42
  const Hiding: TokenKind := 43

  // delimiters
  const LeftParen: TokenKind := 44
  const RightParen: TokenKind := 45
  const LeftBrace: TokenKind := 46
  const RightBrace: TokenKind := 47
  const LeftBracket: TokenKind := 48
  const RightBracket: TokenKind := 49

  // identifiers
  const VarId: TokenKind := 50
  const ConId: TokenKind := 51

  /** The eleven highlighting keys of the highlighter. */
  datatype Category =
    | Illegal | Comment | String | Number | Keyword | Operator
    | Parentheses | Brace | Bracket | Symbol | Constructor

  /** The token set of reserved identifiers. */
  const ReservedIds: set<TokenKind> := {
    Case, Class, Data, Default, Deriving, Do, Else, Foreign,
    If, Import, In, Infix, Infixl, Infixr, Instance, Let,
    Module, Newtype, Of, Then, Type, Where, Underscore
  }

  /** The token set of reserved operators. */
  const ReservedOps: set<TokenKind> := {
    DotDot, Colon, ColonColon, DefinedBy, Slash, VerticalBar,
    LeftArrow, RightArrow, At, Tilde, DoubleRightArrow
  }

  /** The token set of special reserved operators. */
  const SpecialReservedOps: set<TokenKind> := {As, Qualified, Hiding}

  /** Every token kind that some test of the chain accepts. */
  function Recognized(comments: set<TokenKind>): set<TokenKind> {
    {BadCharacter} + comments
    + {StringLiteral, CharacterLiteral} + {Decimal, Float, Hexadecimal, Octal}
    + ReservedIds + ReservedOps + SpecialReservedOps
    + {LeftParen, RightParen} + {LeftBrace, RightBrace} + {LeftBracket, RightBracket}
    + {VarId, ConId}
  }

  /**
   * The highlighting keys of token kind `t`: a one-element sequence for a
   * recognised kind, the empty sequence otherwise. The tests run in the
   * highlighter's order and the first that accepts `t` decides. The numeric test uses Java's non-short-circuit `|` for
   * three of its operands; on side-effect-free comparisons it agrees with `||`.
   */
  function Classify(comments: set<TokenKind>, t: TokenKind): (r: seq<Category>)
    ensures |r| <= 1
  {
    if t == BadCharacter then [Illegal]
    else if t in comments then [Comment]
    else if t == StringLiteral || t == CharacterLiteral then [String]
    else if t == Decimal || t == Float || t == Hexadecimal || t == Octal then [Number]
    else if t in ReservedIds then [Keyword]
    else if t in ReservedOps || t in SpecialReservedOps then [Operator]
    else if t == LeftParen || t == RightParen then [Parentheses]
    else if t == LeftBrace || t == RightBrace then [Brace]
    else if t == LeftBracket || t == RightBracket then [Bracket]
    else if t == VarId then [Symbol]
    else if t == ConId then [Constructor]
    else []
  }

  // ---------------------------------------------------------------------------
  // Branch by branch: which kinds receive each category

  /** The bad-character kind, and only it, is illegal, whatever the comment set. */
  lemma {:induction false} IllegalExactly(comments: set<TokenKind>, t: TokenKind)
    ensures Classify(comments, t) == [Illegal] <==> t == BadCharacter
  {
  }

  /** Every comment kind is a comment, even one that a later test would also accept. */
  lemma {:induction false} CommentExactly(comments: set<TokenKind>, t: TokenKind)
    ensures Classify(comments, t) == [Comment] <==> t in comments && t != BadCharacter
  {
  }

  /** String and character literals are strings; the four numeric literal kinds are numbers. */
  lemma {:induction false} LiteralsExactly(comments: set<TokenKind>, t: TokenKind)
    ensures Classify(comments, t) == [String]
            <==> t in {StringLiteral, CharacterLiteral} && t !in comments
    ensures Classify(comments, t) == [Number]
            <==> t in {Decimal, Float, Hexadecimal, Octal} && t !in comments
  {
  }

  /** The reserved identifiers, the underscore among them, are keywords. */
  lemma {:induction false} KeywordExactly(comments: set<TokenKind>, t: TokenKind)
    ensures Classify(comments, t) == [Keyword] <==> t in ReservedIds && t !in comments
  {
  }

  /** The reserved and the special reserved operators are operators. */
  lemma {:induction false} OperatorExactly(comments: set<TokenKind>, t: TokenKind)
    ensures Classify(comments, t) == [Operator]
            <==> (t in ReservedOps || t in SpecialReservedOps) && t !in comments
  {
  }

  /** Each pair of delimiters shares one category. */
  lemma {:induction false} DelimitersExactly(comments: set<TokenKind>, t: TokenKind)
    ensures Classify(comments, t) == [Parentheses]
            <==> t in {LeftParen, RightParen} && t !in comments
    ensures Classify(comments, t) == [Brace]
            <==> t in {LeftBrace, RightBrace} && t !in comments
    ensures Classify(comments, t) == [Bracket]
            <==> t in {LeftBracket, RightBracket} && t !in comments
  {
  }

  /** Variable identifiers are symbols and constructor identifiers are constructors. */
  lemma {:induction false} IdentifiersExactly(comments: set<TokenKind>, t: TokenKind)
    ensures Classify(comments, t) == [Symbol] <==> t == VarId && t !in comments
    ensures Classify(comments, t) == [Constructor] <==> t == ConId && t !in comments
  {
  }

  /** A kind is left unhighlighted exactly when no test of the chain accepts it. */
  lemma {:induction false} EmptyExactly(comments: set<TokenKind>, t: TokenKind)
    ensures Classify(comments, t) == [] <==> t !in Recognized(comments)
  {
  }

  /** The comment set decides the category of its own members only. */
  lemma {:induction false} CommentSetAffectsOnlyItsMembers(comments: set<TokenKind>, t: TokenKind)
    requires t !in comments
    ensures Classify(comments, t) == Classify({}, t)
  {
  }

  /** The three constant token sets are pairwise disjoint: no kind is in two of them. */
  lemma {:induction false} ReservedSetsDisjoint(t: TokenKind)
    ensures !(t in ReservedIds && t in ReservedOps)
    ensures !(t in ReservedIds && t in SpecialReservedOps)
    ensures !(t in ReservedOps && t in SpecialReservedOps)
  {
  }
}

/**
 * A reference definition of the classifier: an ordered table of rules, each a
 * set of token kinds and the category it yields, of which the first rule that
 * accepts the kind decides.
 */
module RuleTable {
  import opened HaskellSyntaxHighlighter

  /** One test of the chain: the kinds it accepts and the category it then yields. */
  datatype Rule = Rule(kinds: set<TokenKind>, category: Category)

  /** The highlighter's tests as a table, in the order they are tried. */
  function Rules(comments: set<TokenKind>): seq<Rule> {
    [ Rule({BadCharacter}, Illegal),
      Rule(comments, Comment),
      Rule({StringLiteral, CharacterLiteral}, String),
      Rule({Decimal, Float, Hexadecimal, Octal}, Number),
      Rule(ReservedIds, Keyword),
      Rule(ReservedOps + SpecialReservedOps, Operator),
      Rule({LeftParen, RightParen}, Parentheses),
      Rule({LeftBrace, RightBrace}, Brace),
      Rule({LeftBracket, RightBracket}, Bracket),
      Rule({VarId}, Symbol),
      Rule({ConId}, Constructor) ]
  }

  /** The category of the first rule at position `from` or later that accepts `t`,
      or nothing if none does. */
  function FirstMatch(rules: seq<Rule>, from: nat, t: TokenKind): (r: seq<Category>)
    ensures |r| <= 1
    decreases |rules| - from
  {
    if from >= |rules| then []
    else if t in rules[from].kinds then [rules[from].category]
    else FirstMatch(rules, from + 1, t)
  }

  /** Nothing is highlighted exactly when no rule from `from` on accepts the kind. */
  lemma {:induction false} FirstMatchEmpty(rules: seq<Rule>, from: nat, t: TokenKind)
    ensures FirstMatch(rules, from, t) == []
            <==> forall j :: from <= j < |rules| ==> t !in rules[j].kinds
    decreases |rules| - from
  {
    if from < |rules| {
      FirstMatchEmpty(rules, from + 1, t);
    }
  }

  /** The first accepting rule decides, whatever later rules accept. */
  lemma {:induction false} FirstMatchIsFirst(rules: seq<Rule>, from: nat, t: TokenKind, i: nat)
    requires from <= i < |rules| && t in rules[i].kinds
    requires forall j :: from <= j < i ==> t !in rules[j].kinds
    ensures FirstMatch(rules, from, t) == [rules[i].category]
    decreases i - from
  {
    if from < i {
      FirstMatchIsFirst(rules, from + 1, t, i);
    }
  }

  /** Tables that agree from position `from` on give the same result from there. */
  lemma {:induction false} FirstMatchSameSuffix(a: seq<Rule>, b: seq<Rule>, from: nat, t: TokenKind)
    requires |a| == |b| && from <= |a|
    requires forall j :: from <= j < |a| ==> a[j] == b[j]
    ensures FirstMatch(a, from, t) == FirstMatch(b, from, t)
    decreases |a| - from
  {
    if from < |a| {
      FirstMatchSameSuffix(a, b, from + 1, t);
    }
  }

  /** Two adjacent rules that accept no common kind may be tried in either order. */
  lemma {:induction false} SwapDisjointNeighbours(rules: seq<Rule>, i: nat, from: nat, t: TokenKind)
    requires from <= i && i + 1 < |rules|
    requires rules[i].kinds !! rules[i + 1].kinds
    ensures FirstMatch(rules[i := rules[i + 1]][i + 1 := rules[i]], from, t)
            == FirstMatch(rules, from, t)
    decreases i - from
  {
    var swapped := rules[i := rules[i + 1]][i + 1 := rules[i]];
    if from < i {
      SwapDisjointNeighbours(rules, i, from + 1, t);
    } else {
      FirstMatchSameSuffix(swapped, rules, i + 2, t);
    }
  }

  /** The if-chain is the rule table read top to bottom. */
  lemma {:induction false} ClassifyIsFirstMatch(comments: set<TokenKind>, t: TokenKind)
    ensures Classify(comments, t) == FirstMatch(Rules(comments), 0, t)
  {
    var rs := Rules(comments);
    assert FirstMatch(rs, 0, t)
        == if t == BadCharacter then [Illegal] else FirstMatch(rs, 1, t);
    if t == BadCharacter { return; }
    assert FirstMatch(rs, 1, t)
        == if t in comments then [Comment] else FirstMatch(rs, 2, t);
    if t in comments { return; }
    assert FirstMatch(rs, 2, t)
        == if t == StringLiteral || t == CharacterLiteral then [String] else FirstMatch(rs, 3, t);
    if t == StringLiteral || t == CharacterLiteral { return; }
    assert FirstMatch(rs, 3, t)
        == if t == Decimal || t == Float || t == Hexadecimal || t == Octal then [Number] else FirstMatch(rs, 4, t);
    if t == Decimal || t == Float || t == Hexadecimal || t == Octal { return; }
    assert FirstMatch(rs, 4, t)
        == if t in ReservedIds then [Keyword] else FirstMatch(rs, 5, t);
    if t in ReservedIds { return; }
    assert FirstMatch(rs, 5, t)
        == if t in ReservedOps || t in SpecialReservedOps then [Operator] else FirstMatch(rs, 6, t);
    if t in ReservedOps || t in SpecialReservedOps { return; }
    assert FirstMatch(rs, 6, t)
        == if t == LeftParen || t == RightParen then [Parentheses] else FirstMatch(rs, 7, t);
    if t == LeftParen || t == RightParen { return; }
    assert FirstMatch(rs, 7, t)
        == if t == LeftBrace || t == RightBrace then [Brace] else FirstMatch(rs, 8, t);
    if t == LeftBrace || t == RightBrace { return; }
    assert FirstMatch(rs, 8, t)
        == if t == LeftBracket || t == RightBracket then [Bracket] else FirstMatch(rs, 9, t);
    if t == LeftBracket || t == RightBracket { return; }
    assert FirstMatch(rs, 9, t)
        == if t == VarId then [Symbol] else FirstMatch(rs, 10, t);
    if t == VarId { return; }
    assert FirstMatch(rs, 10, t)
        == if t == ConId then [Constructor] else FirstMatch(rs, 11, t);
    if t == ConId { return; }
  }

  /** Testing the operators before the keywords would give the same categories. */
  lemma {:induction false} KeywordOperatorOrderIrrelevant(comments: set<TokenKind>, t: TokenKind)
    ensures FirstMatch(Rules(comments)[4 := Rules(comments)[5]][5 := Rules(comments)[4]], 0, t)
            == Classify(comments, t)
  {
    forall u | u in Rules(comments)[4].kinds ensures u !in Rules(comments)[5].kinds {
      ReservedSetsDisjoint(u);
    }
    SwapDisjointNeighbours(Rules(comments), 4, 0, t);
    ClassifyIsFirstMatch(comments, t);
  }
}
