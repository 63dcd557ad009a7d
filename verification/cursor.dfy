/** The token cursor the parser reads through.

    The original keeps one global reference to the current token; here the
    cursor is an index into the token sequence, passed in and handed back
    explicitly.  All operations look only at the current token.
 */
module Cursor {
  import opened Outcomes
  import opened Lexer

  /** A token list the cursor can walk: it ends in an EOF token, which no
      cursor operation steps over. */
  predicate Terminated(ts: seq<Token>) {
    |ts| > 0 && ts[|ts| - 1].kind == EOF
  }

  predicate Valid(ts: seq<Token>, c: nat) {
    Terminated(ts) && c < |ts|
  }

  /** `t` is the reserved symbol or word `op`. */
  predicate IsOp(t: Token, op: string) {
    t.kind == Reserved && t.str == op
  }

  /** A token taken off the list, and the cursor after it. */
  datatype Taken = Taken(tok: Token, next: nat)

  function Peek(ts: seq<Token>, c: nat, op: string): (b: bool)
    requires Valid(ts, c)
    ensures b <==> Consume(ts, c, op).Some?
  {
    IsOp(ts[c], op)
  }

  /** Steps over the current token if it is `op`. */
  function Consume(ts: seq<Token>, c: nat, op: string): (r: Option<nat>)
    requires Valid(ts, c)
    ensures r.Some? <==> ts[c].kind == Reserved && ts[c].str == op
    ensures r.Some? ==> r.value == c + 1 && r.value < |ts|
  {
    if IsOp(ts[c], op) then Some(c + 1) else None
  }

  /** Takes the current token if it has kind `kind`. */
  function ConsumeKind(ts: seq<Token>, c: nat, kind: TokenKind): (r: Option<Taken>)
    requires Valid(ts, c) && kind != EOF
    ensures r.Some? <==> ts[c].kind == kind
    ensures r.Some? ==> r.value == Taken(ts[c], c + 1) && c + 1 < |ts|
  {
    if ts[c].kind == kind then Some(Taken(ts[c], c + 1)) else None
  }

  /** Steps over `op`, or fails at the current token. */
  function Expect(ts: seq<Token>, c: nat, op: string): (r: Result<nat>)
    requires Valid(ts, c)
    ensures r.Ok? <==> Consume(ts, c, op).Some?
    ensures r.Ok? ==> r.value == Consume(ts, c, op).value
    ensures r.Fail? ==> r.error == NotExpected(ts[c].pos, op)
  {
    if IsOp(ts[c], op) then Ok(c + 1) else Fail(NotExpected(ts[c].pos, op))
  }

  /** Takes a token of kind `kind`, or fails at the current token. */
  function ExpectKind(ts: seq<Token>, c: nat, kind: TokenKind): (r: Result<Taken>)
    requires Valid(ts, c) && kind != EOF
    ensures r.Ok? <==> ConsumeKind(ts, c, kind).Some?
    ensures r.Ok? ==> r.value == ConsumeKind(ts, c, kind).value
    ensures r.Fail? ==> r.error == UnexpectedToken(ts[c].pos)
  {
    if ts[c].kind == kind then Ok(Taken(ts[c], c + 1)) else Fail(UnexpectedToken(ts[c].pos))
  }

  /** Takes a number and returns its value, or fails at the current token. */
  function ExpectNumber(ts: seq<Token>, c: nat): (r: Result<(int, nat)>)
    requires Valid(ts, c)
    ensures r.Ok? <==> ts[c].kind == Number
    ensures r.Ok? ==> r.value == (ts[c].val, c + 1) && c + 1 < |ts|
    ensures r.Fail? ==> r.error == NotNumber(ts[c].pos)
  {
    if ts[c].kind != Number then Fail(NotNumber(ts[c].pos)) else Ok((ts[c].val, c + 1))
  }

  /** The cursor is on the EOF token: always at the last index, and
      nothing can be read there. */
  function AtEOF(ts: seq<Token>, c: nat): (b: bool)
    requires Valid(ts, c)
    ensures c == |ts| - 1 ==> b
    ensures b ==> forall op :: Consume(ts, c, op).None?
    ensures b ==> ExpectNumber(ts, c).Fail?
  {
    ts[c].kind == EOF
  }

  /** In the tokenizer's output EOF comes only at the end, so `AtEOF`
      holds exactly on the last index. */
  lemma AtEOFOnlyAtEnd(p: string, ts: seq<Token>, c: nat)
    requires Layout(p, 0, ts) && c < |ts|
    ensures Valid(ts, c)
    ensures AtEOF(ts, c) <==> c == |ts| - 1
  {
  }
}
