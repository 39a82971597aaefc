# Haskell syntax highlighter: token classification

This project models the token classifier of an IntelliJ plugin for Haskell.
The editor asks the highlighter for the colour keys of each lexical token kind.
The highlighter answers with one key or with none. It runs a fixed chain of
tests in a fixed order, and the first test that accepts the kind decides:

1. the platform's bad-character kind gives `ILLEGAL`;
2. a comment kind gives `COMMENT`;
3. string and character literals give `STRING`;
4. decimal, float, hexadecimal and octal literals give `NUMBER`;
5. the reserved identifiers (23 kinds, `_` among them) give `KEYWORD`;
6. the reserved operators and the special reserved operators (`as`,
   `qualified`, `hiding`) give `OPERATOR`;
7. round, curly and square brackets give `PARENTHESES`, `BRACE` and `BRACKET`;
8. variable identifiers give `SYMBOL`;
9. constructor identifiers give `CONSTRUCTOR`;
10. every other kind gives the empty result.

`highlighter.dfy` holds two modules:

- `HaskellSyntaxHighlighter` holds the token kinds, the eleven keys, the three
  constant token sets and `Classify`, the chain itself. Lemmas say, for each key,
  exactly which kinds receive it.
- `RuleTable` is an independent reference definition. It lists the tests as an
  ordered table of (kinds, key) rules and gives the general first-match rule.
  It proves that `Classify` is that table read from the top. It also proves that
  two adjacent rules with no common kind can be swapped without changing any
  result. So testing keywords before operators is not what makes the
  classification correct.

A token kind is an element type of the IDE platform, compared by identity. The
model gives each kind a natural-number index. The kinds the classifier names
get distinct indices, and every other index stands for some other kind. The
comment kinds are defined in the parser definition, and that file is not part
of this model. So `Classify` takes the comment set as a parameter, and every
lemma holds for every comment set. That includes comment sets that overlap the
other tests, where the ordering decides the result.

## Model

| member | source | states |
|---|---|---|
| `HaskellSyntaxHighlighter.Classify` | src/com/powertuple/intellij/haskell/highlighter/HaskellSyntaxHighlighter.java:67-102 | Every token kind gets at most one highlighting key. The function is total. |
| `HaskellSyntaxHighlighter.IllegalExactly` | src/com/powertuple/intellij/haskell/highlighter/HaskellSyntaxHighlighter.java:68-70 | A kind gets `ILLEGAL` if and only if it is the bad-character kind. This holds for every comment set, so this test comes before all others. |
| `HaskellSyntaxHighlighter.CommentExactly` | src/com/powertuple/intellij/haskell/highlighter/HaskellSyntaxHighlighter.java:71-73 | A kind gets `COMMENT` if and only if it is in the comment set and is not the bad-character kind. A comment kind is a comment even when a later test would also accept it. |
| `HaskellSyntaxHighlighter.LiteralsExactly` | src/com/powertuple/intellij/haskell/highlighter/HaskellSyntaxHighlighter.java:74-79 | A kind gets `STRING` if and only if it is a string or character literal and not a comment kind. A kind gets `NUMBER` if and only if it is one of the four numeric literal kinds and not a comment kind. |
| `HaskellSyntaxHighlighter.KeywordExactly` | src/com/powertuple/intellij/haskell/highlighter/HaskellSyntaxHighlighter.java:80-82 | A kind gets `KEYWORD` if and only if it is in the reserved-identifier set and not a comment kind. |
| `HaskellSyntaxHighlighter.OperatorExactly` | src/com/powertuple/intellij/haskell/highlighter/HaskellSyntaxHighlighter.java:83-85 | A kind gets `OPERATOR` if and only if it is in the reserved-operator set or the special-reserved-operator set and not a comment kind. |
| `HaskellSyntaxHighlighter.DelimitersExactly` | src/com/powertuple/intellij/haskell/highlighter/HaskellSyntaxHighlighter.java:86-94 | Both parentheses, and only they, get `PARENTHESES`. Both braces, and only they, get `BRACE`. Both brackets, and only they, get `BRACKET`. Comment kinds are excepted each time. |
| `HaskellSyntaxHighlighter.IdentifiersExactly` | src/com/powertuple/intellij/haskell/highlighter/HaskellSyntaxHighlighter.java:95-100 | A kind gets `SYMBOL` if and only if it is the variable-identifier kind, and `CONSTRUCTOR` if and only if it is the constructor-identifier kind. Comment kinds are excepted. |
| `HaskellSyntaxHighlighter.EmptyExactly` | src/com/powertuple/intellij/haskell/highlighter/HaskellSyntaxHighlighter.java:101 | The result is empty if and only if no test of the chain accepts the kind. |
| `HaskellSyntaxHighlighter.CommentSetAffectsOnlyItsMembers` | src/com/powertuple/intellij/haskell/highlighter/HaskellSyntaxHighlighter.java:71-73 | A kind outside the comment set is classified as if there were no comment kinds at all. |
| `HaskellSyntaxHighlighter.ReservedSetsDisjoint` | src/com/powertuple/intellij/haskell/highlighter/HaskellSyntaxHighlighter.java:46-57 | No kind belongs to two of the three constant token sets. |
| `RuleTable.FirstMatch` | src/com/powertuple/intellij/haskell/highlighter/HaskellSyntaxHighlighter.java:67-101 | First-match over an ordered rule table yields at most one key. |
| `RuleTable.FirstMatchEmpty` | src/com/powertuple/intellij/haskell/highlighter/HaskellSyntaxHighlighter.java:101 | First-match yields nothing if and only if no rule accepts the kind. |
| `RuleTable.FirstMatchIsFirst` | src/com/powertuple/intellij/haskell/highlighter/HaskellSyntaxHighlighter.java:67-101 | The first rule that accepts the kind decides the result. Later rules that also accept it do not matter. |
| `RuleTable.SwapDisjointNeighbours` | src/com/powertuple/intellij/haskell/highlighter/HaskellSyntaxHighlighter.java:80-85 | Two adjacent rules with no common kind can be swapped without changing the result for any kind. |
| `RuleTable.ClassifyIsFirstMatch` | src/com/powertuple/intellij/haskell/highlighter/HaskellSyntaxHighlighter.java:67-102 | For every comment set and every kind, the if-chain gives the same result as first-match over the table of the eleven tests in their order. |
| `RuleTable.KeywordOperatorOrderIrrelevant` | src/com/powertuple/intellij/haskell/highlighter/HaskellSyntaxHighlighter.java:46-85 | Testing the operator sets before the reserved-identifier set gives the same result for every kind. |

## Left out

- `getHighlightingLexer` only creates the Haskell lexer. The lexer is not part of this model.
- The `TextAttributesKey` objects and their fallback to the platform's default colours are calls into the IDE platform. The eleven keys are plain constructors of `Category`.
- `HaskellParserDefinition.COMMENTS` is not part of this model. The comment set is a parameter of `Classify`, and no property assumes anything about its contents.
- `HaskellTypes` is not part of this model. Its kinds are given arbitrary distinct indices. The classifier depends only on their being distinct.
- The result is a sequence, not an array. The model does not capture that every empty result is the same shared array object, or that each one-key result is a fresh array.
- Java's non-short-circuit `|` in the numeric test is written as `||`. On comparisons without side effects the two give the same value.
- The sizes of the three token sets (23, 11 and 3) can be read from their definitions. They are not stated as lemmas.
- `HaskellLanguage` registers the language name "Haskell", the display name "Haskell language" and case-sensitivity. It contains only constants and no logic.
