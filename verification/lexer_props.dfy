/** Properties of the tokenizer's output. */
module LexerProps {
  import opened Outcomes
  import opened Chars
  import opened Lexer

  /** Every token of `Lex(p, pos)` is well classified. */
  lemma {:induction false} LexClassified(p: string, pos: nat)
    requires pos <= |p|
    requires Lex(p, pos).Ok?
    ensures forall i :: 0 <= i < |Lex(p, pos).value| ==> WellClassified(p, Lex(p, pos).value[i])
    decreases |p| - pos
  {
    var toks := Lex(p, pos).value;
    if pos == |p| {
    } else if IsSpace(p[pos]) {
      LexClassified(p, pos + 1);
    } else {
      var t := toks[0];
      LexClassified(p, End(t));
      assert toks == [t] + Lex(p, End(t)).value;
    }
  }

  /** The tokens of `Tokenize(p)` are all well classified. */
  lemma TokensClassified(p: string)
    requires Tokenize(p).Ok?
    ensures forall i :: 0 <= i < |Tokenize(p).value| ==> WellClassified(p, Tokenize(p).value[i])
  {
    LexClassified(p, 0);
  }

  /** Token positions strictly increase along the list. */
  lemma {:induction false} PositionsIncrease(p: string, toks: seq<Token>, i: nat, j: nat)
    requires Layout(p, 0, toks)
    requires i < j < |toks|
    ensures toks[i].pos < toks[j].pos
    decreases j - i
  {
    if j > i + 1 {
      PositionsIncrease(p, toks, i + 1, j);
    }
  }

  /** Reserved words are spelled with letters only. */
  lemma KeywordLetters(w: string)
    requires w in Keywords
    ensures |w| >= 2
    ensures forall n :: 0 <= n < |w| ==> IsLetter(w[n])
  {
  }

  /** A rune of a well-classified token is not white space, and is not a
      rune that no recogniser accepts. */
  lemma TokenRune(p: string, t: Token, k: nat)
    requires WellClassified(p, t) && Spells(p, t)
    requires t.pos <= k < End(t)
    ensures !IsSpace(p[k]) && !Unlexable(p, k)
  {
    assert p[k] == t.str[k - t.pos];
    if t.kind == Reserved && t.str in Keywords {
      KeywordLetters(t.str);
    } else if t.kind == Reserved && |t.str| == 2 {
      if k == t.pos {
        assert TwoRuneSymbolAt(p, k);
      } else {
        assert p[k] == '=';
      }
    }
  }

  /** No token contains white space. */
  lemma NoSpaceInTokens(p: string)
    requires Tokenize(p).Ok?
    ensures var toks := Tokenize(p).value;
      forall i, k :: 0 <= i < |toks| && 0 <= k < |toks[i].str| ==> !IsSpace(toks[i].str[k])
  {
    var toks := Tokenize(p).value;
    TokensClassified(p);
    forall i, k | 0 <= i < |toks| && 0 <= k < |toks[i].str|
      ensures !IsSpace(toks[i].str[k])
    {
      var t := toks[i];
      assert WellClassified(p, t);
      if i < |toks| - 1 {
        assert Spells(p, t);
        TokenRune(p, t, t.pos + k);
      }
    }
  }

  /** A two-rune symbol is never split across two tokens: no rune that
      starts a token completes a two-rune symbol with the token before it
      (`<=` never lexes as `<` `=`). */
  lemma TwoRuneSymbolsNotSplit(p: string)
    requires Tokenize(p).Ok?
    ensures var toks := Tokenize(p).value;
      forall i :: 0 <= i < |toks| - 2 && End(toks[i]) == toks[i + 1].pos ==>
        !IsTwoRuneSymbol(toks[i].str + [toks[i + 1].str[0]])
  {
    var toks := Tokenize(p).value;
    TokensClassified(p);
    forall i | 0 <= i < |toks| - 2 && End(toks[i]) == toks[i + 1].pos
      ensures !IsTwoRuneSymbol(toks[i].str + [toks[i + 1].str[0]])
    {
      AdjacentNotSymbol(p, toks[i], toks[i + 1]);
    }
  }

  lemma AdjacentNotSymbol(p: string, t: Token, u: Token)
    requires WellClassified(p, t) && Spells(p, t) && Spells(p, u)
    requires |u.str| > 0 && End(t) == u.pos
    ensures !IsTwoRuneSymbol(t.str + [u.str[0]])
  {
    if t.str in Keywords {
      KeywordLetters(t.str);
    } else if t.kind == Reserved && |t.str| == 1 {
      assert !TwoRuneSymbolAt(p, t.pos);
      assert p[t.pos..t.pos + 2] == t.str + [u.str[0]];
    } else if t.kind == Ident && |t.str| == 1 {
      assert IsTokenFirstChar((t.str + [u.str[0]])[0]);
    } else if t.kind == Number && |t.str| == 1 {
      assert IsDigit((t.str + [u.str[0]])[0]);
    }
  }

  /** Words are lexed whole: an identifier or a reserved word is never
      directly followed by an identifier rune (`iffy` is one identifier,
      not `if` and `fy`), and a number is never directly followed by a
      digit. */
  lemma WordsNotSplit(p: string)
    requires Tokenize(p).Ok?
    ensures var toks := Tokenize(p).value;
      forall i :: 0 <= i < |toks| && (toks[i].kind == Ident || toks[i].str in Keywords) && End(toks[i]) < |p| ==>
        !IsTokenChar(p[End(toks[i])])
    ensures var toks := Tokenize(p).value;
      forall i :: 0 <= i < |toks| && toks[i].kind == Number && End(toks[i]) < |p| ==> !IsDigit(p[End(toks[i])])
    ensures var toks := Tokenize(p).value;
      forall i :: 0 <= i < |toks| && toks[i].kind == Ident ==> toks[i].str !in Keywords
  {
    var toks := Tokenize(p).value;
    TokensClassified(p);
    forall i | 0 <= i < |toks| && toks[i].str in Keywords
      ensures toks[i].kind == Reserved && KeywordAt(p, toks[i].pos, toks[i].str)
    {
      assert WellClassified(p, toks[i]);
    }
  }

  /** A number token's value is the decimal value of its text, and fits `Atoi`. */
  lemma NumbersValued(p: string)
    requires Tokenize(p).Ok?
    ensures var toks := Tokenize(p).value;
      forall i :: 0 <= i < |toks| && toks[i].kind == Number ==>
        AllDigits(toks[i].str) && toks[i].val == DecimalValue(toks[i].str) && 0 <= toks[i].val <= MaxInt
  {
    TokensClassified(p);
  }

  /** Cutting the first token off a layout leaves a layout of the rest. */
  lemma LayoutTail(p: string, from: nat, toks: seq<Token>)
    requires Layout(p, from, toks) && |toks| > 1
    ensures Layout(p, End(toks[0]), toks[1..])
  {
    var rest := toks[1..];
    forall i | 0 <= i < |rest| - 1
      ensures End(rest[i]) <= rest[i + 1].pos && Spaces(p, End(rest[i]), rest[i + 1].pos)
    {
      assert rest[i] == toks[i + 1] && rest[i + 1] == toks[i + 2];
    }
  }

  /** Every rune at or after `from` is white space or lies inside a token. */
  lemma {:induction false} Covered(p: string, from: nat, toks: seq<Token>, k: nat)
    requires Layout(p, from, toks)
    requires from <= k < |p| && !IsSpace(p[k])
    ensures exists i :: 0 <= i < |toks| - 1 && toks[i].pos <= k < End(toks[i])
    decreases |toks|
  {
    if k < End(toks[0]) {
      assert 0 < |toks| - 1;
    } else {
      LayoutTail(p, from, toks);
      Covered(p, End(toks[0]), toks[1..], k);
      var i :| 0 <= i < |toks[1..]| - 1 && toks[1..][i].pos <= k < End(toks[1..][i]);
      assert toks[i + 1] == toks[1..][i];
    }
  }

  /** A rune no recogniser accepts makes tokenizing fail, wherever it is. */
  lemma UnlexableFails(p: string, k: nat)
    requires k < |p| && Unlexable(p, k)
    ensures Tokenize(p).Fail?
  {
    if Tokenize(p).Ok? {
      var toks := Tokenize(p).value;
      Covered(p, 0, toks, k);
      var i :| 0 <= i < |toks| - 1 && toks[i].pos <= k < End(toks[i]);
      TokensClassified(p);
      TokenRune(p, toks[i], k);
    }
  }

  /** A digit inside a token, with no identifier rune right before it,
      is the first rune of a number token spanning the whole digit run. */
  lemma DigitInToken(p: string, t: Token, k: nat)
    requires WellClassified(p, t) && Spells(p, t)
    requires t.pos <= k < End(t) && IsDigit(p[k]) && NumberStart(p, k)
    ensures t.kind == Number && t.pos == k && End(t) == k + IsNumber(p, k)
    ensures !NumberTooLarge(p, k)
  {
    assert p[k] == t.str[k - t.pos];
    if k > t.pos {
      assert p[k - 1] == t.str[k - 1 - t.pos];
    }
    if t.kind == Reserved && t.str in Keywords {
      KeywordLetters(t.str);
    } else if t.kind == Number {
      var l := IsNumber(p, k);
      assert End(t) == k + l;
    }
  }

  /** A digit run too large for `Atoi`, where a token can start, makes
      tokenizing fail, wherever it is. */
  lemma TooLargeFails(p: string, k: nat)
    requires k < |p| && NumberStart(p, k) && NumberTooLarge(p, k)
    ensures Tokenize(p).Fail?
  {
    if Tokenize(p).Ok? {
      var toks := Tokenize(p).value;
      assert IsDigit(p[k]);
      Covered(p, 0, toks, k);
      var i :| 0 <= i < |toks| - 1 && toks[i].pos <= k < End(toks[i]);
      TokensClassified(p);
      DigitInToken(p, toks[i], k);
    }
  }

  /** Tokenizing succeeds exactly when no rune is unacceptable and no
      digit run that starts a token is too large for `Atoi`. */
  lemma TokenizeSucceeds(p: string)
    ensures Tokenize(p).Ok? <==>
      && (forall k :: 0 <= k < |p| ==> !Unlexable(p, k))
      && (forall k :: 0 <= k < |p| && NumberStart(p, k) ==> !NumberTooLarge(p, k))
  {
    if Tokenize(p).Ok? {
      forall k | 0 <= k < |p|
        ensures !Unlexable(p, k)
      {
        if Unlexable(p, k) {
          UnlexableFails(p, k);
        }
      }
      forall k | 0 <= k < |p| && NumberStart(p, k)
        ensures !NumberTooLarge(p, k)
      {
        if NumberTooLarge(p, k) {
          TooLargeFails(p, k);
        }
      }
    }
  }
}
