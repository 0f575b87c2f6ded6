/** The token data model shared by the instance scanner and parser (token.h). */
module Tokens {

  /** The enumerators of `enum TokenType`, in declaration order. */
  datatype TokenType =
    | None
    | ParenL | ParenR
    | OpPlus | OpMinus | OpStar | OpSlash
    | LiteralNumber
    | Eof
    | Count

  /** The integer C gives `TOKEN_COUNT`: one past the last real kind. */
  const TOKEN_COUNT: nat := 9

  /** The integer C gives each enumerator: consecutive, starting at `TOKEN_NONE = 0`. */
  function Ordinal(k: TokenType): (n: nat)
    ensures n <= TOKEN_COUNT
    ensures n == 0 <==> k == None
    ensures n == TOKEN_COUNT <==> k == Count
  {
    match k
    case None => 0
    case ParenL => 1
    case ParenR => 2
    case OpPlus => 3
    case OpMinus => 4
    case OpStar => 5
    case OpSlash => 6
    case LiteralNumber => 7
    case Eof => 8
    case Count => 9
  }

  /** The enumerator whose integer value is `n`. */
  function FromOrdinal(n: nat): (k: TokenType)
    requires n <= TOKEN_COUNT
  {
    if n == 0 then None
    else if n == 1 then ParenL
    else if n == 2 then ParenR
    else if n == 3 then OpPlus
    else if n == 4 then OpMinus
    else if n == 5 then OpStar
    else if n == 6 then OpSlash
    else if n == 7 then LiteralNumber
    else if n == 8 then Eof
    else Count
  }

  /** Every enumerator has a distinct value ... */
  lemma OrdinalInjective(k: TokenType)
    ensures FromOrdinal(Ordinal(k)) == k
  {
  }

  /** ... and every value from 0 to TOKEN_COUNT belongs to an enumerator, so the values are consecutive. */
  lemma OrdinalSurjective(n: nat)
    requires n <= TOKEN_COUNT
    ensures Ordinal(FromOrdinal(n)) == n
  {
  }

  /** `TokenTypeName`: one printable name per enumerator, indexed by the enumerator's value. */
  const TokenTypeName: seq<string> := [
    "TOKEN_NONE",
    "TOKEN_PAREN_L", "TOKEN_PAREN_R",
    "TOKEN_OP_PLUS", "TOKEN_OP_MINUS", "TOKEN_OP_STAR", "TOKEN_OP_SLASH",
    "TOKEN_LITERAL_NUMBER",
    "TOKEN_EOF",
    "TOKEN_COUNT"
  ]

  /** The C identifier of each enumerator, written independently of the table. */
  function Identifier(k: TokenType): (s: string)
    ensures |s| > 6 && s[..6] == "TOKEN_"
  {
    match k
    case None => "TOKEN_NONE"
    case ParenL => "TOKEN_PAREN_L"
    case ParenR => "TOKEN_PAREN_R"
    case OpPlus => "TOKEN_OP_PLUS"
    case OpMinus => "TOKEN_OP_MINUS"
    case OpStar => "TOKEN_OP_STAR"
    case OpSlash => "TOKEN_OP_SLASH"
    case LiteralNumber => "TOKEN_LITERAL_NUMBER"
    case Eof => "TOKEN_EOF"
    case Count => "TOKEN_COUNT"
  }

  /** Looking a kind up in `TokenTypeName` is always in bounds and yields that kind's identifier. */
  function Name(k: TokenType): (s: string)
    ensures Ordinal(k) < |TokenTypeName|
    ensures s == Identifier(k)
  {
    TokenTypeName[Ordinal(k)]
  }

  /** The table has exactly one entry per enumerator, `TOKEN_COUNT` included, and no two entries agree. */
  lemma NameTableAligned()
    ensures |TokenTypeName| == TOKEN_COUNT + 1
    ensures forall i, j :: 0 <= i < j < |TokenTypeName| ==> TokenTypeName[i] != TokenTypeName[j]
  {
    forall i, j | 0 <= i < j < |TokenTypeName|
      ensures TokenTypeName[i] != TokenTypeName[j]
    {
      var ki, kj := FromOrdinal(i), FromOrdinal(j);
      assert Name(ki) == TokenTypeName[i] && Name(kj) == TokenTypeName[j];
      IdentifierInjective(ki, kj);
    }
  }

  lemma IdentifierInjective(a: TokenType, b: TokenType)
    requires a != b
    ensures Identifier(a) != Identifier(b)
  {
  }

  /** A token: a kind and a value, meaningful only for number literals; a plain value, copied. */
  datatype Token = Token(kind: TokenType, value: int)
}
