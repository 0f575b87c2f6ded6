# expreval in Dafny

expreval is a small integer-expression evaluator written in C. A scanner turns a line of text
into tokens. A recursive-descent parser then evaluates those tokens as it parses. The
repository has two versions of the pair:

- **The instance version** (`token.h`, `tokenlist.h`, `scanner.h`, `parser.h`):
  - The scanner appends to a growable `TokenList`.
  - The parser makes up an end-of-input token whenever its cursor runs past the list or its
    sticky `has_failed` flag is set. A failure therefore unwinds the whole parse.
- **The no-alloc version** (`noalloc.c`):
  - The cursors and the failure flag are globals, and tokens go into a fixed array of 1024 slots.
  - The scanner stops at the first unknown character and always appends an `EOF` token.
  - The grammar has an extra `^` level, computed with `powi`.
  - The parser never reads the failure flag.

This model covers both versions, file by file. Each piece has the same form as the C code it
models:

- **Plain values become datatypes and functions.** This covers the tokens, the name tables,
  `powi`'s result and the decimal value of a digit run.
- **State that the C code updates becomes classes with `modifies` frames:**
  - `TokenBuffer.TokenList` is an array with `len` and `cap`.
  - `Scanning.Scanner` and `Parsing.Parser` are the two records of the instance version.
  - `NoAlloc.Globals` holds the file-scope globals of `noalloc.c`, and its token slots are an
    `array`.
- **Each method is proved against a reference function.**
  - The scanners are specified by `Lex`, a function from text to the tokens it sweeps and
    whether the sweep failed.
  - The parsers are specified by the state-passing functions `Primary` … `Expr`, which return
    a value and the cursor state after the rule.
  - Every loop carries the invariant that ties it to these functions.
  - The parsing methods promise `Step(v, Cursor()) == Expr(toks, old(Cursor()))` and the like.
- **The reference functions are tied to an independent meaning.** `Grammar` defines a syntax
  tree of expressions and the value each one denotes. The correctness modules prove four
  things:
  - Printing a tree's tokens and parsing them gives the tree's value.
  - Printing tokens as text, each followed by any run of whitespace (an empty one too, except
    between two numbers, whose digits would run together), and scanning that text gives back
    the same tokens.
  - Scanning fails exactly when the text holds an unknown character.
  - The grammar shows the behaviour the code shows: folds are left to right, `*` and `/` bind
    tighter than `+` and `-`, unary minus applies to a primary only, and empty input or a
    trailing operator is accepted.

Integers are mathematical. C's truncating `/` is `Arith.TruncDiv`, not Dafny's Euclidean `/`.
Division by zero, which is undefined behaviour in C, is modelled as a failed parse with the
value 0.

The C code and the usual reading of this design disagree in a few places. The model follows
the code in each case:

- The `parser.h` primary returns 0 without failing at end of input, so empty input is 0 and
  `3+` is 3.
- `scanner.h` appends no end-of-input token.
- The `noalloc.c` scanner appends `EOF` even after a failed sweep.
- The `noalloc.c` parser ignores the failure flag.

## Model

| member | source | states |
|---|---|---|
| Tokens.Ordinal | expreval/token.h:4-12 | the kinds are numbered 0..TOKEN_COUNT; 0 is exactly TOKEN_NONE and TOKEN_COUNT is exactly the last kind |
| Tokens.OrdinalInjective | expreval/token.h:4-12 | the numbering of kinds is one-to-one: a kind is recovered from its number |
| Tokens.OrdinalSurjective | expreval/token.h:4-12 | every integer from 0 to TOKEN_COUNT is the number of some kind, so the numbers are consecutive |
| Tokens.Identifier | expreval/token.h:4-12 | every enumerator is spelled with the TOKEN_ prefix |
| Tokens.Name | expreval/token.h:14-21 | indexing TokenTypeName by any kind's number is in bounds and yields that kind's own identifier |
| Tokens.NameTableAligned | expreval/token.h:14-21 | the name table has exactly TOKEN_COUNT + 1 entries, all different |
| Tokens.IdentifierInjective | expreval/token.h:14-21 | different kinds have different names |
| TokenBuffer.TokenList.Init | expreval/tokenlist.h:34-39 | a new list is empty with capacity TOKEN_LIST_INITIAL_CAPACITY (8) |
| TokenBuffer.TokenList.Free | expreval/tokenlist.h:41-46 | after Free the list is empty with len and cap both 0 |
| TokenBuffer.TokenList.Get | expreval/tokenlist.h:48-51 | for 0 <= idx < len, Get returns the idx-th token appended |
| TokenBuffer.TokenList.Realloc | expreval/tokenlist.h:53-61 | the storage gets the new capacity, and every stored token and the length are kept |
| TokenBuffer.TokenList.TryRealloc | expreval/tokenlist.h:63-66 | cap doubles exactly when len >= cap; otherwise the storage is untouched; the contents are kept |
| TokenBuffer.TokenList.Add | expreval/tokenlist.h:68-73 | the contents become the old contents plus the token at the end, so earlier tokens are unchanged across a growth; len grows by exactly 1 and cap doubles exactly when the list was full |
| TokenBuffer.TokenList.Clear | expreval/tokenlist.h:75-78 | len becomes 0 while cap and the storage are kept |
| TokenBuffer.TokenList.Length | expreval/tokenlist.h:80-83 | returns the number of tokens appended |
| TokenBuffer.TokenList.Capacity | expreval/tokenlist.h:85-88 | returns the size of the storage |
| Arith.TruncDivRemainder | expreval/parser.h:134 | C's `/` (TruncDiv) leaves a remainder smaller than the divisor in magnitude and with the sign of the dividend |
| Arith.TruncProduct | expreval/parser.h:134 | the quotient times the divisor is the magnitude quotient times the magnitude divisor, with the dividend's sign |
| Arith.TruncDivDiffersFromEuclidean | expreval/noalloc.c:296 | C's `/` rounds toward zero (-7/2 is -3) and so differs from Euclidean division (-4) |
| Arith.PowAdd | expreval/noalloc.c:7-15 | the power powi computes adds exponents: a^(m+n) = a^m * a^n |
| Lexical.DigitChar | expreval/scanner.h:119-122 | each digit value has a character that is_number accepts and that reads back as that digit |
| Lexical.DecimalValueNonNegative | expreval/scanner.h:167-177 | the left-to-right `ans*10 + d` fold over digits is never negative |
| Lexical.DigitRun | expreval/scanner.h:179-183 | the digit run the number loop consumes is maximal: it ends at the end of the text or at a non-digit |
| Lexical.DigitRunDigits | expreval/scanner.h:179-183 | every character of that run is a digit |
| Lexical.Decimal | expreval/scanner.h:167-177 | every natural number has a digit spelling without a leading zero |
| Lexical.DecimalRoundTrip | expreval/scanner.h:167-177 | the fold of get_number_from_source reads a number's spelling back as that number |
| Lexical.DigitRunOfRunThenOther | expreval/scanner.h:179-183 | a digit run followed by a non-digit is consumed exactly to its end |
| Lexical.DigitRunSpan | expreval/scanner.h:179-183 | the positions the number loop stops at are exactly the end of the maximal digit run |
| Lexical.DecimalValueExtend | expreval/scanner.h:171-175 | one more digit multiplies the fold by 10 and adds the digit, as one turn of the accumulator loop does |
| Lexical.StrLen | expreval/scanner.h:49-57 | strlen stops at the first NUL, or at the end of the text if there is none |
| Scanning.LexStep | expreval/scanner.h:136-165 | each scan_token call consumes at least one character |
| Scanning.LexUnfold | expreval/scanner.h:81-89 | the sweep is one scan_token step followed by the sweep of what is left, and a failure in either fails the sweep |
| Scanning.ScanAdvances | expreval/scanner.h:81-89 | one turn of the scan loop keeps "tokens so far plus the sweep of the rest" unchanged (the loop invariant of Scan) |
| Scanning.LexProducesOnlyLexemes | expreval/scanner.h:136-165 | every token appended is one of the six punctuators with value 0 or a non-negative number, and none is EOF |
| Scanning.LexFailsIffUnknown | expreval/scanner.h:158-162 | the sweep fails exactly when the text holds a character that is not a punctuator, whitespace or a digit |
| Scanning.Scanner.Init | expreval/scanner.h:49-57 | both cursors are 0, the flag is clear, and source_length is strlen of the source; given a usable token list, the scanner is ready to scan |
| Scanning.Scanner.Free | expreval/scanner.h:59-67 | every field is reset |
| Scanning.Scanner.AddToken | expreval/scanner.h:69-73 | the token list gains exactly that token at its end |
| Scanning.Scanner.Advance | expreval/scanner.h:96-102 | at the end returns NUL without moving; otherwise returns the current character and moves on by exactly one |
| Scanning.Scanner.IsWhitespace | expreval/scanner.h:124-134 | the search of the whitespace buffer succeeds exactly for space, tab, CR, LF and VT |
| Scanning.Scanner.GetNumberFromSource | expreval/scanner.h:167-177 | returns the decimal value of source[idx_start..idx_end] |
| Scanning.Scanner.ScanNumber | expreval/scanner.h:179-183 | consumes the maximal digit run and appends one number token whose value is the decimal value of start..current |
| Scanning.Scanner.ScanToken | expreval/scanner.h:136-165 | moves the cursor, extends the list and sets the flag exactly as one step of Lex prescribes |
| Scanning.Scanner.Scan | expreval/scanner.h:81-89 | ends at source_length, having appended exactly the sweep's tokens (and no EOF); the flag is set iff it was set or the sweep failed, so scanning continues after an unknown character |
| ScannerCorrectness.Spell | expreval/scanner.h:136-165 | every token the scanner produces has a spelling that starts with no whitespace, and with a digit exactly when the token is a number |
| ScannerCorrectness.LexSkipsWhitespace | expreval/scanner.h:148-152 | whitespace before a text changes nothing in its sweep |
| ScannerCorrectness.LexNumberSpelling | expreval/scanner.h:167-183 | a number's digits followed by nothing or by a non-digit are one lexeme, that number |
| ScannerCorrectness.LexSpelling | expreval/scanner.h:136-183 | a token's spelling followed by any whitespace, or by none when a number is not followed by a digit, scans to exactly that token, and scanning goes on after the whitespace |
| ScannerCorrectness.RenderStart | expreval/scanner.h:136-165 | a printed text starts with a digit exactly when its first token is a number |
| ScannerCorrectness.LexRender | expreval/scanner.h:81-183 | printing tokens with any whitespace after each, empty allowed except between two numbers, and scanning the text gives back those tokens, without failure |
| Parsing.Primary | expreval/parser.h:159-201 | primary always consumes a token, and once failed the parse stays failed |
| Parsing.Unary | expreval/parser.h:142-157 | unary consumes at least one token and keeps a failure |
| Parsing.MulDivRest | expreval/parser.h:127-137 | the muldiv loop never moves the cursor back and keeps a failure |
| Parsing.MulDiv | expreval/parser.h:123-140 | muldiv consumes at least one token and keeps a failure |
| Parsing.AddSubRest | expreval/parser.h:108-118 | the addsub loop never moves the cursor back and keeps a failure |
| Parsing.AddSub | expreval/parser.h:104-121 | addsub consumes at least one token and keeps a failure |
| Parsing.Expr | expreval/parser.h:99-102 | expr consumes at least one token and keeps a failure |
| Parsing.AddSubRestStep | expreval/parser.h:108-118 | one turn of the addsub loop: fold the next muldiv operand into l and continue from there |
| Parsing.MulDivRestStep | expreval/parser.h:127-137 | one turn of the muldiv loop: fold the next unary operand into l and continue from there |
| Parsing.Parser.Init | expreval/parser.h:37-42 | the parser reads the given list from cursor 0 with the flag clear |
| Parsing.Parser.Free | expreval/parser.h:44-49 | every field is reset |
| Parsing.Parser.PeekAt | expreval/parser.h:51-54 | returns the token at current + offset |
| Parsing.Parser.PeekPrevious | expreval/parser.h:62-65 | returns the token just consumed |
| Parsing.Parser.IsAtEnd | expreval/parser.h:92-97 | true exactly when the cursor is past the tokens or the parse has failed |
| Parsing.Parser.Peek | expreval/parser.h:56-60 | returns the look-ahead token, which is EOF past the end or after a failure |
| Parsing.Parser.Advance | expreval/parser.h:72-78 | returns the look-ahead token and moves the cursor by exactly one, even at the end |
| Parsing.Parser.Match | expreval/parser.h:80-90 | consumes one token and returns true iff the look-ahead has the kind; otherwise the cursor is unchanged |
| Parsing.Parser.MatchEither | expreval/parser.h:108 | the `match(a) \|\| match(b)` condition: consumes one token iff the look-ahead is either kind |
| Parsing.Parser.ParseExpr | expreval/parser.h:99-102 | computes the value and final cursor and flag of the reference Expr |
| Parsing.Parser.ParseAddSub | expreval/parser.h:104-121 | the left fold of + and - computes exactly the reference AddSub |
| Parsing.Parser.ParseMulDiv | expreval/parser.h:123-140 | the left fold of * and / (truncating, failing on a zero divisor) computes exactly the reference MulDiv |
| Parsing.Parser.ParseUnary | expreval/parser.h:142-157 | computes exactly the reference Unary: a sign applies to one primary |
| Parsing.Parser.ParsePrimary | expreval/parser.h:159-201 | computes exactly the reference Primary, including the missing-')' and unexpected-token failures |
| ParserCorrectness.PrimaryParses | expreval/parser.h:159-201 | the tokens of a primary parse to its value, or fail when it has no value |
| ParserCorrectness.UnaryParses | expreval/parser.h:142-157 | the tokens of a signed primary parse to its value |
| ParserCorrectness.PrimaryStart | expreval/parser.h:159-201 | a primary starts with a number or '(' |
| ParserCorrectness.TermParses | expreval/parser.h:123-140 | the tokens of a product parse to its left-associated value, leaving the muldiv loop at its end |
| ParserCorrectness.ScaleParses | expreval/parser.h:123-140 | a product with one more operand parses to the left-associated value |
| ParserCorrectness.FoldMulDiv | expreval/parser.h:127-137 | one muldiv loop turn over a printed operator and operand computes the tree's value |
| ParserCorrectness.ExprParses | expreval/parser.h:104-121 | the tokens of a sum parse to its left-associated value, so * and / bind tighter than + and - |
| ParserCorrectness.CombineParses | expreval/parser.h:104-121 | a sum with one more term parses to the left-associated value |
| ParserCorrectness.FoldAddSub | expreval/parser.h:108-118 | one addsub loop turn over a printed operator and term computes the tree's value |
| ParserCorrectness.ParsePrinted | expreval/parser.h:99-201 | the printed tokens of any expression without `^`, followed by nothing or by a token that is not a binary operator, parse to the expression's value, and fail exactly when it has none (division by zero) |
| ParserCorrectness.FailedParseIsInert | expreval/parser.h:92-97 | once failed, a parse consumes one token and yields 0 |
| ParserCorrectness.EmptyInputIsZero | expreval/parser.h:166-170 | empty input evaluates to 0 without failure |
| ParserCorrectness.TrailingOperatorIsLenient | expreval/parser.h:104-121 | `3 +` evaluates to 3 without failure |
| ParserCorrectness.DoubleNegationFails | expreval/parser.h:192-197 | `- - 5` fails, because a sign applies to a primary only |
| ParserCorrectness.UnclosedGroupFails | expreval/parser.h:177-190 | `( 1` fails for want of ')' |
| NoAllocSpec.Ordinal | expreval/noalloc.c:17-24 | the kinds of noalloc.c are numbered consecutively from TOKEN_NONE = 0 to TOKEN_COUNT = 10 |
| NoAllocSpec.OrdinalInjective | expreval/noalloc.c:17-24 | different kinds have different numbers |
| NoAllocSpec.Name | expreval/noalloc.c:26-33 | indexing the name table by any kind is in bounds, and every entry starts "TOKE" (the pow entry is misspelt "TOKE_OP_POW") |
| NoAllocSpec.LexStep | expreval/noalloc.c:126-156 | each scan_token call consumes at least one character and fails exactly on an unknown one |
| NoAllocSpec.ScanAdvances | expreval/noalloc.c:158-166 | one turn of the scan loop keeps "tokens so far plus the pending sweep" unchanged, stopping once the flag is set |
| NoAllocSpec.Primary | expreval/noalloc.c:212-243 | primary consumes a token, keeps a failure, and a stale read stays recorded |
| NoAllocSpec.Unary | expreval/noalloc.c:245-262 | unary consumes a token, keeps a failure and keeps a stale read |
| NoAllocSpec.PowRest | expreval/noalloc.c:268-278 | the pow loop never moves back, keeps a failure and keeps a stale read |
| NoAllocSpec.PowExpr | expreval/noalloc.c:264-280 | pow consumes a token, keeps a failure and keeps a stale read |
| NoAllocSpec.MulDivRest | expreval/noalloc.c:286-303 | the muldiv loop never moves back, keeps a failure and keeps a stale read |
| NoAllocSpec.MulDiv | expreval/noalloc.c:282-305 | muldiv consumes a token, keeps a failure and keeps a stale read |
| NoAllocSpec.AddSubRest | expreval/noalloc.c:311-328 | the addsub loop never moves back, keeps a failure and keeps a stale read |
| NoAllocSpec.AddSub | expreval/noalloc.c:307-330 | addsub consumes a token, keeps a failure and keeps a stale read |
| NoAllocSpec.Expr | expreval/noalloc.c:332-335 | expr consumes a token, keeps a failure and keeps a stale read |
| NoAllocSpec.PowRestStep | expreval/noalloc.c:268-278 | one turn of the pow loop: l = powi(l, r) for the next unary operand |
| NoAllocSpec.MulDivRestStep | expreval/noalloc.c:286-303 | one turn of the muldiv loop: fold the next pow operand into l |
| NoAllocSpec.AddSubRestStep | expreval/noalloc.c:311-328 | one turn of the addsub loop: fold the next muldiv operand into l |
| NoAllocSpec.PrimaryIgnoresFlag | expreval/noalloc.c:212-243 | primary started failed differs only in the flag: the parser never reads has_failed |
| NoAllocSpec.UnaryIgnoresFlag | expreval/noalloc.c:245-262 | unary never reads has_failed |
| NoAllocSpec.PowRestIgnoresFlag | expreval/noalloc.c:268-278 | the pow loop never reads has_failed |
| NoAllocSpec.PowExprIgnoresFlag | expreval/noalloc.c:264-280 | pow never reads has_failed |
| NoAllocSpec.MulDivRestIgnoresFlag | expreval/noalloc.c:286-303 | the muldiv loop never reads has_failed |
| NoAllocSpec.MulDivIgnoresFlag | expreval/noalloc.c:282-305 | muldiv never reads has_failed |
| NoAllocSpec.AddSubRestIgnoresFlag | expreval/noalloc.c:311-328 | the addsub loop never reads has_failed |
| NoAllocSpec.ExprIgnoresFlag | expreval/noalloc.c:332-335 | expr never reads has_failed |
| NoAlloc.Powi | expreval/noalloc.c:7-15 | powi(a, b) is a raised to b for b > 0 and 1 for b <= 0 |
| NoAlloc.PowStep | expreval/noalloc.c:11-14 | one more turn of the powi loop multiplies by a once more |
| NoAlloc.FailureFlagIsInert | expreval/noalloc.c:342-361 | parsing after a failed scan gives the same value, cursor and reads as a clean start; only the flag differs |
| NoAlloc.Globals.constructor | expreval/noalloc.c:40-49 | the globals start empty: flag clear, empty source, all cursors and lengths 0 |
| NoAlloc.Globals.ScannerAdvance | expreval/noalloc.c:76-81 | returns the current character and moves on by exactly one |
| NoAlloc.Globals.ScannerMatch | expreval/noalloc.c:83-91 | consumes one character iff it is the given one; at the end of the text the character compared is the terminating NUL |
| NoAlloc.Globals.AddTokenWithValue | expreval/noalloc.c:103-107 | writes the token into the next slot; the earlier tokens and the slots beyond are unchanged |
| NoAlloc.Globals.AddToken | expreval/noalloc.c:109-112 | appends the kind with value 0 |
| NoAlloc.Globals.ScanNumber | expreval/noalloc.c:114-124 | consumes the maximal digit run after the first digit and returns the decimal value of the whole run |
| NoAlloc.Globals.ScanToken | expreval/noalloc.c:126-156 | moves the cursor, appends and sets the flag exactly as one step of the reference sweep; '^' gives TOKEN_OP_POW |
| NoAlloc.Globals.Scan | expreval/noalloc.c:158-166 | appends the sweep's tokens up to the first unknown character, then exactly one EOF even after a failure; it reaches the end when it did not fail |
| NoAlloc.Globals.PeekAt | expreval/noalloc.c:173-176 | returns the slot at current + offset |
| NoAlloc.Globals.Peek | expreval/noalloc.c:178-181 | returns the token at the cursor |
| NoAlloc.Globals.PeekPrevious | expreval/noalloc.c:183-186 | returns the token just consumed |
| NoAlloc.Globals.Advance | expreval/noalloc.c:193-198 | returns the token at the cursor and moves on by exactly one |
| NoAlloc.Globals.Match | expreval/noalloc.c:200-208 | consumes exactly one token iff its kind matches; otherwise the cursor is unchanged |
| NoAlloc.Globals.MatchEither | expreval/noalloc.c:286 | the `match(a) \|\| match(b)` condition: consumes one token iff the current one is either kind |
| NoAlloc.Globals.Parse | expreval/noalloc.c:337-340 | computes exactly the reference Expr from the current state |
| NoAlloc.Globals.ParseExpr | expreval/noalloc.c:332-335 | computes exactly the reference Expr |
| NoAlloc.Globals.ParseAddSub | expreval/noalloc.c:307-330 | the left fold of + and - computes exactly the reference AddSub |
| NoAlloc.Globals.ParseMulDiv | expreval/noalloc.c:282-305 | the left fold of * and / computes exactly the reference MulDiv |
| NoAlloc.Globals.ParsePow | expreval/noalloc.c:264-280 | the left fold of ^ through powi computes exactly the reference PowExpr |
| NoAlloc.Globals.ParseUnary | expreval/noalloc.c:245-262 | computes exactly the reference Unary |
| NoAlloc.Globals.ParsePrimary | expreval/noalloc.c:212-243 | computes exactly the reference Primary: NONE and EOF give 0 without failing, and ')' must close a group |
| NoAlloc.Globals.Eval | expreval/noalloc.c:342-361 | resets the flag and every cursor, fills the slots with the sweep of the text up to its NUL plus EOF, and returns the reference parse of them, started with the scan's failure flag |
| NoAllocLexCorrectness.LexFailsIffUnknown | expreval/noalloc.c:126-166 | the sweep fails exactly when the text holds an unknown character |
| NoAllocLexCorrectness.LexStopsAtUnknown | expreval/noalloc.c:51-54 | after known characters, an unknown one ends the sweep with the flag set, and nothing after it is scanned |
| NoAllocLexCorrectness.LexStepExtends | expreval/noalloc.c:114-124 | a lexeme stays the same when a non-digit follows it |
| NoAllocLexCorrectness.DigitRunAppend | expreval/noalloc.c:116-119 | text after a non-digit does not change how far the number loop reaches |
| NoAllocLexCorrectness.Spell | expreval/noalloc.c:126-156 | every token the scanner produces has a spelling that starts with no whitespace, and with a digit exactly when the token is a number |
| NoAllocLexCorrectness.LexSkipsWhitespace | expreval/noalloc.c:145-148 | whitespace before a text changes nothing in its sweep |
| NoAllocLexCorrectness.LexNumberSpelling | expreval/noalloc.c:114-124 | a number's digits followed by nothing or by a non-digit are one lexeme, that number |
| NoAllocLexCorrectness.LexSpelling | expreval/noalloc.c:114-156 | a token's spelling followed by any whitespace, or by none when a number is not followed by a digit, scans to exactly that token |
| NoAllocLexCorrectness.RenderStart | expreval/noalloc.c:126-156 | a printed text starts with a digit exactly when its first token is a number |
| NoAllocLexCorrectness.LexRender | expreval/noalloc.c:158-166 | printing tokens with any whitespace after each, empty allowed except between two numbers, and scanning gives back those tokens, without failure |
| NoAllocLexCorrectness.CleanStrLen | expreval/noalloc.c:355 | a text the sweep takes without failure has no NUL, so strlen counts all of it |
| NoAllocLexCorrectness.RenderStrLen | expreval/noalloc.c:355 | a printed text has no NUL, so strlen counts all of it |
| NoAllocParseCorrectness.PrimaryParses | expreval/noalloc.c:212-243 | the tokens of a primary parse to its value, and fail when it has none |
| NoAllocParseCorrectness.UnaryParses | expreval/noalloc.c:245-262 | the tokens of a signed primary parse to its value |
| NoAllocParseCorrectness.PrimaryStart | expreval/noalloc.c:212-243 | a primary starts with a number or '(' |
| NoAllocParseCorrectness.FactorParses | expreval/noalloc.c:264-280 | the tokens of a power chain parse to its left-associated powi value |
| NoAllocParseCorrectness.RaiseParses | expreval/noalloc.c:264-280 | a power chain with one more exponent parses to powi of the base's value |
| NoAllocParseCorrectness.FoldPow | expreval/noalloc.c:268-278 | one pow loop turn over '^' and a unary operand computes powi of the two |
| NoAllocParseCorrectness.TermParses | expreval/noalloc.c:282-305 | the tokens of a product parse to its left-associated value, so ^ binds tighter than * and / |
| NoAllocParseCorrectness.ScaleParses | expreval/noalloc.c:282-305 | a product with one more factor parses to the left-associated value |
| NoAllocParseCorrectness.FoldMulDiv | expreval/noalloc.c:286-303 | one muldiv loop turn over a printed operator and factor computes the tree's value |
| NoAllocParseCorrectness.ExprParses | expreval/noalloc.c:307-330 | the tokens of a sum parse to its left-associated value |
| NoAllocParseCorrectness.CombineParses | expreval/noalloc.c:307-330 | a sum with one more term parses to the left-associated value |
| NoAllocParseCorrectness.FoldAddSub | expreval/noalloc.c:311-328 | one addsub loop turn over a printed operator and term computes the tree's value |
| NoAllocParseCorrectness.ParsePrinted | expreval/noalloc.c:332-340 | the printed tokens of any expression, followed by a token that is not an operator (such as EOF), parse to its value and stop on that token, reading no stale slot; the flag is set exactly when it has none |
| NoAllocParseCorrectness.UngluedJoin | expreval/noalloc.c:114-124 | joining token runs with no two numbers in a row around a non-number keeps no two numbers in a row |
| NoAllocParseCorrectness.ExprUnglued | expreval/noalloc.c:307-330 | a printed expression never has two numbers in a row, so it needs no whitespace anywhere |
| NoAllocParseCorrectness.EvalPrinted | expreval/noalloc.c:342-361 | printing any expression with any whitespace after each token, none at all included, and evaluating the text gives the expression's value, failing exactly on division by zero |
| NoAllocParseCorrectness.UnspacedText | expreval/noalloc.c:342-361 | `2+3*4`, with no blank, scans cleanly and evaluates to 14 |
| NoAllocParseCorrectness.PowGroupsLeft | expreval/noalloc.c:264-280 | `2^3^2` is (2^3)^2 = 64 |
| NoAllocParseCorrectness.SignBindsTighterThanPow | expreval/noalloc.c:245-280 | `-2^2` is (-2)^2 = 4 |
| NoAllocParseCorrectness.DivisionByZeroFails | expreval/noalloc.c:294-297 | `8/0` sets the failure flag |
| NoAllocParseCorrectness.TrailingOperatorReadsStale | expreval/noalloc.c:307-330 | after `3 +` the parser reads the slot past EOF |
| NoAllocParseCorrectness.EmptyInputReadsStale | expreval/noalloc.c:212-280 | on empty input the parser reads the slot past EOF |

## Left out

- The interactive drivers and their I/O: `main` in `noalloc.c` and `eval_loop` with `is_quit_message`. eval.h is not part of this model.
- The `fprintf(stderr, …)` diagnostics. Only the `has_failed` flag they come with is modelled.
- `malloc`/`realloc` failure in `tokenlist.h`. Allocation is assumed to succeed: growth is a fresh, larger array that the old tokens are copied into. The failure path, where Add would write out of bounds, is not modelled.
- TokenBuffer.TokenList.Add: does not model the 32-bit overflow of `cap * 2`, because integers are unbounded. It requires `cap > 0`, so it excludes the list after Free, where the C code would double 0 and write out of bounds.
- 32-bit `int` overflow in digit accumulation and in `+ - * ^` is not modelled. Every integer is mathematical.
- Division by zero is undefined behaviour in C (`parser.h:134`, `noalloc.c:296`). The model treats it as a failed parse with the value 0.
- The unused `scanner_peek_next` and `parser_peek_next` of both versions are not modelled. `noalloc.c`'s `parser_is_at_end` is never called and reads slot 1 instead of the cursor, so it is left out too.
- Parser reads in `noalloc.c` past the appended `EOF` into slots left over from earlier calls are marked stale in the reference model. NoAlloc.Globals.Parse and the parse methods require a parse that reads no stale slot. Two such parses are empty input and a trailing operator, shown by `EmptyInputReadsStale` and `TrailingOperatorReadsStale`.
- NoAlloc.Globals.Eval: requires the sweep to fit in the 1024 slots together with its `EOF`, where the C code would write past the array.
- NoAlloc.Globals.ScannerAdvance: requires that the cursor is not at the end. The C function reads `source[current]` unconditionally, and every caller checks the end first.
- `scanner_peek`, `scanner_peek_previous` and `scanner_is_at_end` are side-effect-free functions without contracts of their own, and so are `Lexical.IsNumber` (`scanner_is_number`, `scanner.h:119-122` and `noalloc.c:98-101`) and `Lexical.IsWhitespace` (`noalloc.c`'s `scanner_is_whitespace`, `noalloc.c:93-96`), each a plain character test. Their meaning is in the contracts of the methods that use them.
- The `default` branches of the operator switches in both parsers cannot be reached, because the loop only enters after matching one of the level's operators. The model has no such branch.
- The parse methods of `noalloc.c` take the token sequence as a ghost parameter, so that the reference functions can be stated over it.
- `TokenTypeName` strings are modelled only as far as their alignment with the kinds, and the misspelt `"TOKE_OP_POW"` entry is kept as written.
