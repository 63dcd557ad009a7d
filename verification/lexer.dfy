/** The tokenizer: a rune sequence becomes a list of tokens ending in EOF.

    The original chains tokens through `next` fields; here the list is a
    sequence.  Recognisers are tried in the original's order at each
    position: white space, reserved symbol, reserved word, identifier,
    number.
 */
module Lexer {
  import opened Outcomes
  import opened Chars

  datatype TokenKind = Reserved | Ident | Number | EOF

  /** `val` is meaningful only for `Number`; the others carry 0. */
  datatype Token = Token(kind: TokenKind, str: string, pos: nat, val: int)

  /** The largest value `strconv.Atoi` accepts (Go's `int` on a 64-bit target). */
  const MaxInt: int := 0x7FFF_FFFF_FFFF_FFFF

  /** Reserved words, in the order the recogniser tries them. */
  const Keywords: seq<string> := ["int", "if", "else", "while", "for", "return"]

  predicate IsSymbolRune(r: char) {
    r in "+-*/&()<>={};,"
  }

  predicate IsTwoRuneSymbol(s: string) {
    s == "<=" || s == ">=" || s == "==" || s == "!="
  }

  /** A two-rune symbol starts at `pos`. */
  predicate TwoRuneSymbolAt(p: string, pos: nat) {
    pos + 2 <= |p| && IsTwoRuneSymbol(p[pos..pos + 2])
  }

  /** Word `w` occurs at `pos` and is not followed by an identifier rune. */
  predicate KeywordAt(p: string, pos: nat, w: string) {
    && pos + |w| <= |p|
    && p[pos..pos + |w|] == w
    && (pos + |w| == |p| || !IsTokenChar(p[pos + |w|]))
  }

  function End(t: Token): nat {
    t.pos + |t.str|
  }

  /** Length of the reserved symbol at `pos`: 2, 1, or 0 for none. */
  function IsReservedSymbol(p: string, pos: nat): (l: nat)
    requires pos < |p|
    ensures pos + l <= |p|
    ensures l == 2 <==> TwoRuneSymbolAt(p, pos)
    ensures l == 1 <==> !TwoRuneSymbolAt(p, pos) && IsSymbolRune(p[pos])
    ensures l == 0 <==> !TwoRuneSymbolAt(p, pos) && !IsSymbolRune(p[pos])
  {
    if |p| - pos >= 2 && IsTwoRuneSymbol(p[pos..pos + 2]) then 2
    else if IsSymbolRune(p[pos]) then 1
    else 0
  }

  /** Index of the first of `Keywords[i..]` found at `pos`. */
  function WordFrom(p: string, pos: nat, i: nat): (r: Option<nat>)
    requires pos <= |p| && i <= |Keywords|
    ensures r.Some? ==> i <= r.value < |Keywords| && KeywordAt(p, pos, Keywords[r.value])
    ensures r.None? ==> forall j :: i <= j < |Keywords| ==> !KeywordAt(p, pos, Keywords[j])
    decreases |Keywords| - i
  {
    if i == |Keywords| then None
    else
      var w := Keywords[i];
      if |w| > |p| - pos then WordFrom(p, pos, i + 1)
      else if p[pos..pos + |w|] != w then WordFrom(p, pos, i + 1)
      else if |w| < |p| - pos && IsTokenChar(p[pos + |w|]) then WordFrom(p, pos, i + 1)
      else Some(i)
  }

  /** Length of the reserved word at `pos`, 0 if none. */
  function IsReservedWord(p: string, pos: nat): (l: nat)
    requires pos < |p|
    ensures pos + l <= |p|
    ensures l > 0 ==> p[pos..pos + l] in Keywords && KeywordAt(p, pos, p[pos..pos + l])
    ensures l == 0 ==> forall w :: w in Keywords ==> !KeywordAt(p, pos, w)
  {
    match WordFrom(p, pos, 0)
    case None => 0
    case Some(j) => |Keywords[j]|
  }

  /** First index at or after `end` whose rune is not an identifier rune. */
  function TokenCharsEnd(p: string, end: nat): (e: nat)
    requires end <= |p|
    ensures end <= e <= |p|
    ensures forall k :: end <= k < e ==> IsTokenChar(p[k])
    ensures e == |p| || !IsTokenChar(p[e])
    decreases |p| - end
  {
    if end < |p| && IsTokenChar(p[end]) then TokenCharsEnd(p, end + 1) else end
  }

  /** First index at or after `end` whose rune is not a digit. */
  function DigitsEnd(p: string, end: nat): (e: nat)
    requires end <= |p|
    ensures end <= e <= |p|
    ensures forall k :: end <= k < e ==> IsDigit(p[k])
    ensures e == |p| || !IsDigit(p[e])
    decreases |p| - end
  {
    if end < |p| && IsDigit(p[end]) then DigitsEnd(p, end + 1) else end
  }

  /** Length of the identifier at `pos`: the maximal run of identifier
      runes, provided the first may start one. */
  function IsIdent(p: string, pos: nat): (l: nat)
    requires pos < |p|
    ensures l == 0 <==> !IsTokenFirstChar(p[pos])
    ensures pos + l <= |p|
    ensures forall k :: pos <= k < pos + l ==> IsTokenChar(p[k])
    ensures l > 0 ==> pos + l == |p| || !IsTokenChar(p[pos + l])
  {
    if !IsTokenFirstChar(p[pos]) then 0 else TokenCharsEnd(p, pos + 1) - pos
  }

  /** Length of the maximal digit run at `pos` (0 when there is none). */
  function IsNumber(p: string, pos: nat): (l: nat)
    requires pos <= |p|
    ensures pos + l <= |p|
    ensures forall k :: pos <= k < pos + l ==> IsDigit(p[k])
    ensures pos + l == |p| || !IsDigit(p[pos + l])
  {
    DigitsEnd(p, pos) - pos
  }

  /** `k` holds a rune that no recogniser accepts. */
  predicate Unlexable(p: string, k: nat)
    requires k < |p|
  {
    && !IsSpace(p[k])
    && IsReservedSymbol(p, k) == 0
    && !IsTokenFirstChar(p[k])
    && !IsDigit(p[k])
  }

  /** The digit run at `k` is too large for `Atoi`. */
  predicate NumberTooLarge(p: string, k: nat)
    requires k < |p|
  {
    var l := IsNumber(p, k);
    l > 0 && DecimalValue(p[k..k + l]) > MaxInt
  }

  /** No identifier rune comes right before `k`, so a digit run at `k`
      cannot be the tail of an identifier, reserved word or number. */
  predicate NumberStart(p: string, k: nat)
    requires k <= |p|
  {
    k == 0 || !IsTokenChar(p[k - 1])
  }

  /** Indices `lo..hi` of `p` are all white space. */
  predicate Spaces(p: string, lo: nat, hi: nat) {
    forall k :: lo <= k < hi ==> k < |p| && IsSpace(p[k])
  }

  /** The token's text is the slice of the input at its position. */
  predicate Spells(p: string, t: Token) {
    End(t) <= |p| && p[t.pos..End(t)] == t.str
  }

  /** `toks` tokenizes `p[from..]`: non-empty slices of the input in
      increasing order, separated only by white space, and a single EOF
      token at the very end. */
  predicate Layout(p: string, from: nat, toks: seq<Token>) {
    && |toks| > 0
    && toks[|toks| - 1] == Token(EOF, [], |p|, 0)
    && (forall i :: 0 <= i < |toks| - 1 ==>
          toks[i].kind != EOF && |toks[i].str| > 0 && Spells(p, toks[i]))
    && from <= toks[0].pos && Spaces(p, from, toks[0].pos)
    && (forall i :: 0 <= i < |toks| - 1 ==>
          End(toks[i]) <= toks[i + 1].pos && Spaces(p, End(toks[i]), toks[i + 1].pos))
  }

  /** A token placed at the start of `p[pos..]` extends a layout of the rest. */
  lemma LayoutCons(p: string, t: Token, rest: seq<Token>)
    requires t.kind != EOF && |t.str| > 0 && Spells(p, t)
    requires Layout(p, End(t), rest)
    ensures Layout(p, t.pos, [t] + rest)
  {
    var toks := [t] + rest;
    forall i | 0 <= i < |toks| - 1
      ensures End(toks[i]) <= toks[i + 1].pos && Spaces(p, End(toks[i]), toks[i + 1].pos)
    {
      if i > 0 {
        assert toks[i] == rest[i - 1] && toks[i + 1] == rest[i];
      }
    }
  }

  /** White space in front of a layout may be absorbed into it. */
  lemma LayoutSkip(p: string, pos: nat, toks: seq<Token>)
    requires pos < |p| && IsSpace(p[pos])
    requires Layout(p, pos + 1, toks)
    ensures Layout(p, pos, toks)
  {
  }

  /** What each kind of token looks like, read against the input `p`. */
  predicate WellClassified(p: string, t: Token) {
    match t.kind
    case Reserved =>
      || IsTwoRuneSymbol(t.str)
      || (|t.str| == 1 && IsSymbolRune(t.str[0]) && !TwoRuneSymbolAt(p, t.pos))
      || (t.str in Keywords && KeywordAt(p, t.pos, t.str))
    case Ident =>
      && |t.str| > 0
      && IsTokenFirstChar(t.str[0])
      && (forall k :: 0 <= k < |t.str| ==> IsTokenChar(t.str[k]))
      && (End(t) < |p| ==> !IsTokenChar(p[End(t)]))
      && t.str !in Keywords
    case Number =>
      && AllDigits(t.str)
      && (End(t) < |p| ==> !IsDigit(p[End(t)]))
      && t.val == DecimalValue(t.str)
      && t.val <= MaxInt
    case EOF => t.str == []
  }

  lemma SymbolClassified(p: string, pos: nat, l: nat)
    requires pos < |p| && l == IsReservedSymbol(p, pos) && l > 0
    ensures WellClassified(p, Token(Reserved, p[pos..pos + l], pos, 0))
  {
  }

  lemma WordClassified(p: string, pos: nat, l: nat)
    requires pos < |p| && l == IsReservedWord(p, pos) && l > 0
    ensures WellClassified(p, Token(Reserved, p[pos..pos + l], pos, 0))
  {
  }

  lemma IdentClassified(p: string, pos: nat, l: nat)
    requires pos < |p| && IsReservedWord(p, pos) == 0
    requires l == IsIdent(p, pos) && l > 0
    ensures WellClassified(p, Token(Ident, p[pos..pos + l], pos, 0))
  {
    var s := p[pos..pos + l];
    if s in Keywords {
      assert KeywordAt(p, pos, s);
    }
  }

  lemma NumberClassified(p: string, pos: nat, l: nat)
    requires pos < |p| && l == IsNumber(p, pos) && l > 0
    requires DecimalValue(p[pos..pos + l]) <= MaxInt
    ensures WellClassified(p, Token(Number, p[pos..pos + l], pos, DecimalValue(p[pos..pos + l])))
  {
  }

  /** The token that starts at `pos`, trying the recognisers in order. */
  function NextToken(p: string, pos: nat): (r: Result<Token>)
    requires pos < |p| && !IsSpace(p[pos])
    ensures r.Ok? ==> r.value.pos == pos && r.value.kind != EOF && |r.value.str| > 0
    ensures r.Ok? ==> Spells(p, r.value) && WellClassified(p, r.value)
    ensures r.Fail? ==> r.error.UnableToTokenize? || r.error.BadNumber?
    ensures r.Fail? ==> r.error.at == pos
    ensures r.Fail? && r.error.UnableToTokenize? ==> Unlexable(p, pos)
    ensures r.Fail? && r.error.BadNumber? ==> NumberTooLarge(p, pos)
  {
    var sym := IsReservedSymbol(p, pos);
    if sym > 0 then
      SymbolClassified(p, pos, sym);
      Ok(Token(Reserved, p[pos..pos + sym], pos, 0))
    else
      var word := IsReservedWord(p, pos);
      if word > 0 then
        WordClassified(p, pos, word);
        Ok(Token(Reserved, p[pos..pos + word], pos, 0))
      else
        NameOrNumber(p, pos)
  }

  /** The identifier or number at `pos`, once no reserved symbol or word
      starts there. */
  function NameOrNumber(p: string, pos: nat): (r: Result<Token>)
    requires pos < |p| && !IsSpace(p[pos])
    requires IsReservedSymbol(p, pos) == 0 && IsReservedWord(p, pos) == 0
    ensures r.Ok? ==> r.value.pos == pos && r.value.kind != EOF && |r.value.str| > 0
    ensures r.Ok? ==> Spells(p, r.value) && WellClassified(p, r.value)
    ensures r.Fail? ==> r.error.UnableToTokenize? || r.error.BadNumber?
    ensures r.Fail? ==> r.error.at == pos
    ensures r.Fail? && r.error.UnableToTokenize? ==> Unlexable(p, pos)
    ensures r.Fail? && r.error.BadNumber? ==> NumberTooLarge(p, pos)
  {
    var ident := IsIdent(p, pos);
    if ident > 0 then
      IdentClassified(p, pos, ident);
      Ok(Token(Ident, p[pos..pos + ident], pos, 0))
    else
      var digits := IsNumber(p, pos);
      if digits > 0 then
        var num := DecimalValue(p[pos..pos + digits]);
        if num > MaxInt then Fail(BadNumber(pos))
        else
          NumberClassified(p, pos, digits);
          Ok(Token(Number, p[pos..pos + digits], pos, num))
      else
        Fail(UnableToTokenize(pos))
  }

  /** Tokenizes `p[pos..]`. */
  function Lex(p: string, pos: nat): (r: Result<seq<Token>>)
    requires pos <= |p|
    ensures r.Ok? ==> Layout(p, pos, r.value)
    ensures r.Fail? ==> (r.error.UnableToTokenize? || r.error.BadNumber?)
    ensures r.Fail? ==> pos <= r.error.at < |p|
    ensures r.Fail? && r.error.UnableToTokenize? ==> Unlexable(p, r.error.at)
    ensures r.Fail? && r.error.BadNumber? ==> NumberTooLarge(p, r.error.at)
    ensures r.Fail? && r.error.BadNumber? ==> r.error.at == pos || NumberStart(p, r.error.at)
    decreases |p| - pos, 1
  {
    if pos == |p| then
      Ok([Token(EOF, [], |p|, 0)])
    else if IsSpace(p[pos]) then
      var toks :- Lex(p, pos + 1);
      LayoutSkip(p, pos, toks);
      Ok(toks)
    else
      var t :- NextToken(p, pos);
      LexedToken(p, t)
  }

  /** A digit run right after a token is never the tail of that token:
      identifiers, reserved words and numbers end where no identifier
      rune (or, for a number, no digit) follows. */
  lemma NumberAfterToken(p: string, t: Token)
    requires t.kind != EOF && |t.str| > 0 && Spells(p, t) && WellClassified(p, t)
    ensures End(t) < |p| && NumberTooLarge(p, End(t)) ==> NumberStart(p, End(t))
  {
    if End(t) < |p| && NumberTooLarge(p, End(t)) {
      var e := End(t);
      assert IsDigit(p[e]);
      assert p[e - 1] == t.str[|t.str| - 1];
      if t.kind == Reserved && IsTwoRuneSymbol(t.str) {
        assert t.str[1] == '=';
      } else if t.kind == Reserved && t.str !in Keywords {
        assert IsSymbolRune(t.str[0]);
      }
    }
  }

  /** Emits `t` and tokenizes what follows it. */
  function LexedToken(p: string, t: Token): (r: Result<seq<Token>>)
    requires t.kind != EOF && |t.str| > 0 && Spells(p, t) && WellClassified(p, t)
    ensures r.Ok? ==> Layout(p, t.pos, r.value) && r.value[0] == t
    ensures r.Fail? ==> (r.error.UnableToTokenize? || r.error.BadNumber?)
    ensures r.Fail? ==> End(t) <= r.error.at < |p|
    ensures r.Fail? && r.error.UnableToTokenize? ==> Unlexable(p, r.error.at)
    ensures r.Fail? && r.error.BadNumber? ==> NumberTooLarge(p, r.error.at)
    ensures r.Fail? && r.error.BadNumber? ==> NumberStart(p, r.error.at)
    decreases |p| - t.pos, 0
  {
    NumberAfterToken(p, t);
    var rest :- Lex(p, End(t));
    LayoutCons(p, t, rest);
    Ok([t] + rest)
  }

  /** Tokenizes the whole input. */
  function Tokenize(p: string): (r: Result<seq<Token>>)
    ensures r.Ok? ==> Layout(p, 0, r.value)
    ensures r.Fail? ==> (r.error.UnableToTokenize? || r.error.BadNumber?)
    ensures r.Fail? ==> r.error.at < |p|
    ensures r.Fail? && r.error.UnableToTokenize? ==> Unlexable(p, r.error.at)
    ensures r.Fail? && r.error.BadNumber? ==> NumberTooLarge(p, r.error.at)
    ensures r.Fail? && r.error.BadNumber? ==> NumberStart(p, r.error.at)
  {
    Lex(p, 0)
  }
}
