/** Tokens as the PHP tokenizer hands them to the call finder, and the
    lookup tables the finder classifies them with (src/CallFinder.php:10-46). */
module Tokens {
  import opened Php

  /** The tokenizer kinds the finder tells apart; every other kind is `Other`. */
  datatype Kind =
    | CloseTag | Comment | DocComment | InlineHtml | OpenTag | OpenTagWithEcho | Whitespace
    | CurlyOpen | DollarOpenCurlyBraces
    | DoubleColon | String | NsSeparator | ObjectOperator
    | Other

  /** A token is either a bare one-character string or a (kind, text) pair. */
  datatype Token = Ch(c: char) | Tok(kind: Kind, text: string)

  /** `$ignore`: whitespace, comments and open/close tags. */
  predicate Ignored(t: Token) {
    t.Tok? && t.kind in {CloseTag, Comment, DocComment, InlineHtml, OpenTag, OpenTagWithEcho, Whitespace}
  }

  /** `$up`: tokens that open one more nesting level. */
  predicate OpensLevel(t: Token) {
    t in {Ch('('), Ch('['), Ch('{')} || (t.Tok? && t.kind in {CurlyOpen, DollarOpenCurlyBraces})
  }

  /** `$down`: tokens that close one nesting level. */
  predicate ClosesLevel(t: Token) {
    t in {Ch(')'), Ch(']'), Ch('}')}
  }

  /** The keys of `$modifiers`: the five unary prefix operators. */
  predicate IsModifierSymbol(c: char) {
    c in {'!', '@', '+', '-', '~'}
  }

  /** A token that is one of the five modifier operators. */
  predicate IsModifier(t: Token) {
    t.Ch? && IsModifierSymbol(t.c)
  }

  /** `$identifier`: the pieces of a qualified name (`::`, a name, `\`). */
  predicate InQualifiedName(t: Token) {
    t.Tok? && t.kind in {DoubleColon, String, NsSeparator}
  }

  /** A token the outer scan keeps in its window: a (kind, text) token that is not ignored. */
  predicate Significant(t: Token) {
    t.Tok? && !Ignored(t)
  }

  /** How far a token moves a line cursor: bare characters never do. */
  function LineBreaks(t: Token): nat {
    if t.Tok? then CountNewlines(t.text) else 0
  }

  /** Line feeds in the text of the (kind, text) tokens of `ts`. */
  function Newlines(ts: seq<Token>): nat {
    if ts == [] then 0 else Newlines(ts[..|ts| - 1]) + LineBreaks(ts[|ts| - 1])
  }

  lemma {:induction false} NewlinesAppend(a: seq<Token>, b: seq<Token>)
    ensures Newlines(a + b) == Newlines(a) + Newlines(b)
    decreases |b|
  {
    if b != [] {
      assert (a + b)[..|a + b| - 1] == a + b[..|b| - 1];
      NewlinesAppend(a, b[..|b| - 1]);
    } else {
      assert a + b == a;
    }
  }

  /** A line cursor never moves back: a longer prefix holds at least as many line feeds. */
  lemma NewlinesMonotone(ts: seq<Token>, i: nat, j: nat)
    requires i <= j <= |ts|
    ensures Newlines(ts[..i]) <= Newlines(ts[..j])
  {
    assert ts[..j] == ts[..i] + ts[i..j];
    NewlinesAppend(ts[..i], ts[i..j]);
  }

  /** Tokens without a line feed in their text do not move a line cursor. */
  lemma {:induction false} NewlinesNone(ts: seq<Token>)
    requires forall k :: 0 <= k < |ts| ==> LineBreaks(ts[k]) == 0
    ensures Newlines(ts) == 0
  {
    if ts != [] {
      NewlinesNone(ts[..|ts| - 1]);
    }
  }
}
