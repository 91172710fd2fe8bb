/** The lexer and the parser together: the lexer produces only
    punctuation and operator tokens, and the parser needs a numeric
    literal to build a tree, so lexing then parsing any source yields no
    tree. */
module Pipeline {
  import opened Common
  import opened Tokens
  import opened Lexer
  import opened Parser

  /** Lexing then parsing never yields an expression. */
  lemma {:induction false} LexedSourceParsesToNothing(source: string)
    requires Tokenize(source).Success?
    ensures Parse(Tokenize(source).value).Success? ==> Parse(Tokenize(source).value).value.None?
  {
    var toks := Tokenize(source).value;
    assert forall i | 0 <= i < |toks| :: IsPunctToken(toks[i]);
    NoLiteralNoTree(toks);
  }

  /** Punctuation tokens alone hold no numeric literal, so `parse` builds
      no tree from them. */
  lemma {:induction false} NoLiteralNoTree(toks: seq<Token>)
    requires forall i | 0 <= i < |toks| :: IsPunctToken(toks[i])
    ensures Parse(toks).Success? ==> Parse(toks).value.None?
  {
    forall i | 0 <= i < |toks| ensures toks[i].kind !in {INTEGER, FLOAT} {
      assert IsPunctToken(toks[i]);
    }
  }
}
