# parser.ts core, modelled in Dafny

parser.ts is a small compiler for spreadsheet formulas: text is lexed into
tokens, parsed into a syntax tree, optionally rewritten into a normal
form, bound into a tree whose cell references are tracked in a dependency
graph, and evaluated to a number. The repository holds several
generations of this pipeline side by side, and they really differ (the
comment syntax, the composite tokens and the way cells are tracked all
change from one to the next), so each source file is modelled on its own
terms in a module of its own:

| source file | Dafny file | module |
|---|---|---|
| src/lexing/lexer.ts | lexing_lexer.dfy | `LexingLexer` |
| src/CodeAnalysis/Parser/Lexer.ts | parser_lexer.dfy | `ParserLexer` |
| src/analysis/lexer.ts | analysis_lexer.dfy | `AnalysisLexer` |
| lexer.ts | root_lexer.dfy | `RootLexer` |
| src/Lexer.ts | src_lexer.dfy | `SrcLexer` |
| src/CodeAnalysis/Parser/Parser.ts | parser.dfy | `CodeAnalysisParser` |
| src/Parser.ts | lookahead_parser.dfy | `LookaheadParser` |
| src/CodeAnalysis/Rewriter/Rewriter.ts | rewriter.dfy | `Rewriter` |
| src/analysis/binder.ts | analysis_binder.dfy | `AnalysisBinder` |
| src/analysis/binder/binder.ts | block_binder.dfy | `BlockBinder` |
| src/Binder.ts | src_binder.dfy | `ReferenceBinder` |
| src/CodeAnalysis/Binder/BoundScope.ts | bound_scope.dfy | `CellScope` |
| src/Cell.ts | cell_graph.dfy | `CellGraph` |
| src/Environment.ts | environment.dfy | `Environment` |
| src/runtime/evaluator.ts | evaluator.dfy | `Evaluator` |
| src/CodeAnalysis/DiagnosticBag.ts | diagnostic_bag.dfy | `Diagnostics` |
| src/lexing/span.ts, src/lexing/line.span.ts | span.dfy | `LexingSpan` |
| src/CodeAnalysis/SyntaxNode.ts | syntax_print.dfy | `SyntaxPrint` |

`common.dfy` (`Common`) holds what the modules share: an `Option` type,
JavaScript's `charAt` and `substring` on strings, the character classes
the scanners test (`[a-zA-Z]`, `[0-9]`, `\s` and the space characters),
and maximal runs of a class.

The classes of the source whose methods update fields in place (the
lexers, the parsers, the binders, the scopes, the cell graph, the
environment, the evaluator and the diagnostic bag) are Dafny classes with
those fields. Each method is proved against a specification function of
the old state (`Scan`, `NextToken`, `ParseAt`, `TryDeclare`, `Run`, …),
and the properties the source promises are lemmas about those functions:
lexers tile their input and always make progress, lookahead restores the
position, the parser's shapes follow operator precedence, the rewriter
reaches a normal form, dependency edges are kept in both directions, and
diagnostics are only ever appended. Code that only computes values (the
rewriter, the printer, the message templates, spans) is modelled with
datatypes and functions.

JavaScript throws become `Failure`/`Threw` results that carry the error.
Tables the code consults but that live in files outside the core (the
kind, keyword and precedence tables) are parameters, with only the facts
the code relies on required of them.

In src/Parser.ts the range condition tests `match(IndentifierToken,
ColonToken)` twice (line 34). The method `LookaheadParser.Parser.Parse`
keeps both tests; the specification function `LookaheadParser.ParseAt`
tests it once, which decides the same inputs.

## Model

| member | source | states |
|---|---|---|
| LexingLexer.QuoteEnd | src/lexing/lexer.ts:111-117 | the position just past the first `"` after the opening one, with no `"` before it; none exactly when no `"` follows |
| LexingLexer.NumberEnd | src/lexing/lexer.ts:96-107 | a number takes at least its first digit and stays within the input |
| LexingLexer.NumberStep | src/lexing/lexer.ts:96-107 | the number token starts at its first digit and ends where the cursor stops |
| LexingLexer.CommentStep | src/lexing/lexer.ts:109-120 | the comment token starts at its quote, takes at least one character and ends where the cursor stops |
| LexingLexer.Scan | src/lexing/lexer.ts:21-63 | each token starts at the cursor and ends where the cursor stops; while input remains the cursor advances by at least one and stays within the input; at the end of input the token is the zero-width end-of-file token and the cursor stays; end-of-file is produced exactly there |
| LexingLexer.Tokenize | src/lexing/lexer.ts:16-19 | `lex` yields at least one and at most length + 1 tokens; the first starts at the cursor, each starts where the previous one ended, every token before the last is non-empty and not end-of-file, and the last is the zero-width end-of-file token at the text length |
| LexingLexer.ScanIdentifier | src/lexing/lexer.ts:84-88 | an identifier is the maximal run of ASCII letters, so a following digit starts a new token |
| LexingLexer.ScanNumber | src/lexing/lexer.ts:96-107 | a number is digits, then optionally a dot and digits; a dot with no digit after it reports `badFloatingPointNumber` and the token still includes the dot |
| LexingLexer.ScanColon | src/lexing/lexer.ts:122-129 | `::` is one colon-colon token of width two; a lone `:` is a colon token of width one |
| LexingLexer.ScanComment | src/lexing/lexer.ts:109-120 | a `"` comment runs through the next `"` inclusive; unterminated, it reports `missingClosingQuote` and runs to the end of input |
| LexingLexer.ScanBadCharacter | src/lexing/lexer.ts:65-69 | an unrecognised character reports `badCharacterFound` and becomes a bad token of width one |
| LexingLexer.Lexer.CreateFrom | src/lexing/lexer.ts:7-14 | a new lexer reads the given text, with `start` and `position` at 0, no diagnostics, and its invariant established |
| LexingLexer.Lexer.LexNextToken | src/lexing/lexer.ts:21-63 | `start` is set to the cursor, and the token, the new cursor and the diagnostics are those of one scan step |
| LexingLexer.Lexer.LexBadToken | src/lexing/lexer.ts:65-69 | the character is reported and skipped as a bad token of width one |
| LexingLexer.Lexer.AdvanceAndCreateNewToken | src/lexing/lexer.ts:71-74 | the token of the given kind covers exactly one character |
| LexingLexer.Lexer.HasNext | src/lexing/lexer.ts:159-161 | input remains exactly when the current character is not the empty string |
| LexingLexer.Lexer.Char | src/lexing/lexer.ts:146-153 | the current character, at most one character long; the empty string exactly at or past the end of the text |
| LexingLexer.Lexer.AtLetter | src/lexing/lexer.ts:141-144 | true exactly when the current character is an ASCII letter; the empty string at the end is none |
| LexingLexer.Lexer.AtDigit | src/lexing/lexer.ts:136-139 | true exactly when the current character is a decimal digit; the empty string at the end is none |
| LexingLexer.Lexer.AtSpace | src/lexing/lexer.ts:131-134 | true exactly when the current character is a space, a tab or a carriage return; the empty string at the end is none |
| LexingLexer.Lexer.LexIdentifier | src/lexing/lexer.ts:84-88 | the cursor ends after the maximal letter run |
| LexingLexer.Lexer.LexSpaceToken | src/lexing/lexer.ts:90-94 | the cursor ends after the maximal run of spaces, tabs and carriage returns |
| LexingLexer.Lexer.SkipDigits | src/lexing/lexer.ts:98 | the cursor ends after the maximal digit run |
| LexingLexer.Lexer.LexNumberToken | src/lexing/lexer.ts:96-107 | the token, cursor and diagnostics are those of the number step |
| LexingLexer.Lexer.LexCommentToken | src/lexing/lexer.ts:109-120 | the token, cursor and diagnostics are those of the comment step |
| LexingLexer.Lexer.LexColonColonToken | src/lexing/lexer.ts:122-129 | the token and cursor are those of the colon step |
| LexingLexer.Lexer.Lex | src/lexing/lexer.ts:16-19 | the tokens and diagnostics are exactly those of `Tokenize` from the cursor, and the cursor ends at the text length |
| ParserLexer.MatchesAtMeansEachKind | src/CodeAnalysis/Parser/Lexer.ts:135-142 | `Match` succeeds exactly when the i-th character ahead is classified as the i-th kind, for every kind given |
| ParserLexer.CommentEnd | src/CodeAnalysis/Parser/Lexer.ts:75-82 | the end of a comment lies between its start and the end of the input |
| ParserLexer.CommentEndAt | src/CodeAnalysis/Parser/Lexer.ts:76-80 | the comment loop stops at a new line or end of file and otherwise takes one more character |
| ParserLexer.CommentEndStops | src/CodeAnalysis/Parser/Lexer.ts:76-80 | a comment ends at the first new line or end of file after its `#`, and at nothing before it |
| ParserLexer.NumberEnd | src/CodeAnalysis/Parser/Lexer.ts:93-107 | a number takes at least one character and never runs past the input |
| ParserLexer.UnclassifiedStep | src/CodeAnalysis/Parser/Lexer.ts:22-36 | a character the table does not classify yields a bad-token kind field and a token that takes at least one character and stays inside the input |
| ParserLexer.Scan | src/CodeAnalysis/Parser/Lexer.ts:17-64 | every call moves the index on by at least one; inside the input it stays inside unless it reads end of file; past the end it yields end of file one step further and reports nothing |
| ParserLexer.ScanComposite | src/CodeAnalysis/Parser/Lexer.ts:42-57 | `->` is one pointer token and `>>` one greater-greater token, each two characters wide; a minus or greater not followed by `>` is a one-character token of its own kind |
| ParserLexer.ScanUnclassified | src/CodeAnalysis/Parser/Lexer.ts:22-36 | an unclassified character is read as a maximal letter run with its keyword-or-identifier kind, then as a number, then as a maximal space run, and otherwise is reported as a bad token and skipped as one character |
| ParserLexer.ScanNumber | src/CodeAnalysis/Parser/Lexer.ts:93-107 | a number is a digit run, then an optional dot and a digit run; a dot with no digit after it is reported as a bad floating point number and kept in the token, and without a dot nothing is reported |
| ParserLexer.ScanComment | src/CodeAnalysis/Parser/Lexer.ts:38-40 | a comment takes at least its `#`, stops before the first new line or at end of file, and holds neither |
| ParserLexer.ScanBeforeEnd | src/CodeAnalysis/Parser/Lexer.ts:61-63 | a character not classified as end of file starts a token that is not end of file and ends inside the input |
| ParserLexer.TokensAreLossless | src/CodeAnalysis/Parser/Lexer.ts:17-64 | the texts of the tokens up to end of file, joined, give back the input exactly, since each token's text is the input between its start and the next index |
| ParserLexer.Lexer.constructor | src/CodeAnalysis/Parser/Lexer.ts:9-15 | a new lexer is at index 0 with no diagnostics |
| ParserLexer.Lexer.Match | src/CodeAnalysis/Parser/Lexer.ts:135-142 | the result is whether the characters ahead are classified as the given kinds, in order |
| ParserLexer.Lexer.Peek | src/CodeAnalysis/Parser/Lexer.ts:123-125 | the character `offset` places past the index, or the empty string exactly when that lies past the end (`charAt`) |
| ParserLexer.Lexer.Char | src/CodeAnalysis/Parser/Lexer.ts:127-129 | the character at the index, or the empty string exactly at the end |
| ParserLexer.Lexer.Lex | src/CodeAnalysis/Parser/Lexer.ts:17-64 | the token, the new index, the kind field and the diagnostics added are those `Scan` gives from the old index, so the properties of `Scan` hold for every call |
| ParserLexer.Lexer.LexSymbol | src/CodeAnalysis/Parser/Lexer.ts:42-63 | a classified character other than `#` gives the token and index `Scan` gives, reading `->` and `>>` as one token |
| ParserLexer.Lexer.LexUnclassified | src/CodeAnalysis/Parser/Lexer.ts:22-36 | an unclassified character gives the token, index and diagnostics of `UnclassifiedStep` |
| ParserLexer.Lexer.ParseIdentifier | src/CodeAnalysis/Parser/Lexer.ts:67-72 | the index ends after the maximal letter run, and the token is that run with the kind the keyword table gives it |
| ParserLexer.Lexer.ParseCommentToken | src/CodeAnalysis/Parser/Lexer.ts:75-82 | the index ends where `CommentEnd` says and the token is the comment text from its `#` |
| ParserLexer.Lexer.SkipComment | src/CodeAnalysis/Parser/Lexer.ts:76-80 | the loop advances at least once and stops at the comment's end |
| ParserLexer.Lexer.ParseSpaceToken | src/CodeAnalysis/Parser/Lexer.ts:85-90 | the index ends after the maximal run of space, tab and carriage return, and the token is that run |
| ParserLexer.Lexer.SkipDigits | src/CodeAnalysis/Parser/Lexer.ts:94-96 | the index ends after the maximal digit run |
| ParserLexer.Lexer.ParseNumberToken | src/CodeAnalysis/Parser/Lexer.ts:93-107 | the index ends where `NumberEnd` says, a bad floating point number is reported exactly when `NumberEnd` flags one, and the token is the number text |
| AnalysisLexer.MatchesOne | src/analysis/lexer.ts:152-159 | matching a single kind is comparing the kind of the character at the cursor |
| AnalysisLexer.CommentEndStops | src/analysis/lexer.ts:57-62 | the comment scan stops at the first position whose character is a line break or the end of input, and no earlier one |
| AnalysisLexer.CommentEnd | src/analysis/lexer.ts:57-62 | the end of a comment lies between its first character after `#` and the end of the input |
| AnalysisLexer.CommentEndAt | src/analysis/lexer.ts:58-60 | the comment loop stops at a line break or end of file and otherwise takes one more character |
| AnalysisLexer.NumberEnd | src/analysis/lexer.ts:104-115 | a number takes at least one character and never runs past the input |
| AnalysisLexer.UnclassifiedStep | src/analysis/lexer.ts:42-55 | a character the table does not recognise yields a token that takes at least one character, stays inside the input, and leaves the kind field a bad token |
| AnalysisLexer.Scan | src/analysis/lexer.ts:23-40 | every call of `Lex` moves the cursor forward; inside the input it stays within the input, and at the end it yields the end-of-file token and steps one past the end |
| AnalysisLexer.ScanComposite | src/analysis/lexer.ts:64-92 | `->`, `>>` and `::` fold into one token of width two (pointer, greater-greater, colon-colon); otherwise `-`, `>` and `:` are one-character tokens |
| AnalysisLexer.ScanComment | src/analysis/lexer.ts:57-62 | a `#` comment takes at least one character, carries its exact text, and stops before the first line break or at the end of input |
| AnalysisLexer.ScanUnclassified | src/analysis/lexer.ts:42-55 | a character the table does not know is tried as a letter (a maximal letter run whose kind comes from the keyword table), then a digit (a number), then a space (a maximal space run); anything else reports `BadTokenFound` and takes one character |
| AnalysisLexer.ScanNumber | src/analysis/lexer.ts:104-115 | a number is digits, then, after a dot, more digits; a dot with no digit after it reports `BadFloatingPointNumber` and the token still ends after the dot |
| AnalysisLexer.ScanOtherKind | src/analysis/lexer.ts:38-39 | every other kind of the table takes exactly one character |
| AnalysisLexer.TokensTile | src/analysis/lexer.ts:23-24 | successive tokens tile the input: each starts where the previous ended, every token before the last is non-empty and holds exactly the text of its span, and the last is the empty end-of-file token at the input's length |
| AnalysisLexer.Lexer.constructor | src/analysis/lexer.ts:17-21 | the cursor starts at 0 with kind end-of-file |
| AnalysisLexer.Lexer.Match | src/analysis/lexer.ts:152-159 | true exactly when the characters from the cursor have the given kinds in order; nothing moves |
| AnalysisLexer.Lexer.Peek | src/analysis/lexer.ts:140-142 | the character `offset` places past the cursor, or the empty string exactly when that lies past the end (`charAt`) |
| AnalysisLexer.Lexer.Char | src/analysis/lexer.ts:144-146 | the character at the cursor, or the empty string exactly at the end |
| AnalysisLexer.Lexer.Lex | src/analysis/lexer.ts:23-40 | the token starts where the previous one ended, and the token, the new cursor and the diagnostics are those of one scan step |
| AnalysisLexer.Lexer.LexBadToken | src/analysis/lexer.ts:42-55 | the unclassified-character step: letter, digit or space run, or one reported bad character |
| AnalysisLexer.Lexer.LexCommentToken | src/analysis/lexer.ts:57-62 | the cursor ends at the first line break or end of input after the `#`, and the token is a comment with the text of its span |
| AnalysisLexer.Lexer.CommentStops | src/analysis/lexer.ts:60 | the loop condition holds exactly when the current character is classified as a line break or end of file |
| AnalysisLexer.Lexer.LexComposite | src/analysis/lexer.ts:64-92 | the composite-token step: one character, or two when the second has the composite's kind |
| AnalysisLexer.Lexer.LexIdentifier | src/analysis/lexer.ts:94-97 | the cursor ends after the maximal letter run, and the token's kind is the keyword table's entry for its text |
| AnalysisLexer.Lexer.LexSpaceToken | src/analysis/lexer.ts:99-102 | the cursor ends after the maximal run of spaces, tabs and carriage returns |
| AnalysisLexer.Lexer.SkipDigits | src/analysis/lexer.ts:105 | the cursor ends after the maximal digit run |
| AnalysisLexer.Lexer.LexNumberToken | src/analysis/lexer.ts:104-115 | the cursor ends where the number ends, and the diagnostics gain `BadFloatingPointNumber` exactly when a dot has no digit after it |
| RootLexer.NextToken | lexer.ts:81-110 | every call moves `position` forward; a token starts at or after the old position, and every token but end-of-file ends where `position` now stands, within the input |
| RootLexer.TokenShape | lexer.ts:48-60 | numbers and identifiers are maximal digit or letter runs, a kept space token a maximal whitespace run, and every token but end-of-file carries exactly the text of its span; single characters (listed or unknown) have `to = from + 1` |
| RootLexer.SkipsOnlyWhitespace | lexer.ts:62-68 | with spaces ignored, only whitespace is skipped before the token, which starts at the first other character; with spaces kept nothing is skipped |
| RootLexer.EndOfFile | lexer.ts:107-109 | end-of-file comes exactly at the end of the input, or when only skipped whitespace is left; its span is empty and `position` still moves on by one |
| RootLexer.Lexer.constructor | lexer.ts:22-24 | a lexer starts at position 0 and ignores spaces |
| RootLexer.Lexer.GetNextCharacter | lexer.ts:34-38 | the character at `position` ("" past the end) is returned and `position` moves on by one |
| RootLexer.Lexer.GetCharacter | lexer.ts:30-32 | the character at `position`, or the empty string exactly when `position` lies past the end; nothing moves |
| RootLexer.Lexer.KeepSpace | lexer.ts:40-42 | spaces are kept afterwards |
| RootLexer.Lexer.IgnoreSpace | lexer.ts:44-46 | spaces are skipped afterwards |
| RootLexer.Lexer.ReadRun | lexer.ts:51 | the `raw +=` loop ends after the maximal run and `raw` is exactly the text it passed over |
| RootLexer.Lexer.GetIdentifier | lexer.ts:48-53 | the identifier token and new position of `getNextToken` at a letter |
| RootLexer.Lexer.GetNumber | lexer.ts:55-60 | the number token and new position of `getNextToken` at a digit |
| RootLexer.Lexer.GetSpace | lexer.ts:62-68 | a whitespace run becomes a space token when spaces are kept; otherwise it is skipped and the next token is returned |
| RootLexer.Lexer.GetNextToken | lexer.ts:81-110 | the token and new position are those of `NextToken`: digits, then whitespace, then letters, then single characters, then unknown characters, then end of file |
| RootLexer.Lexer.PeekToken | lexer.ts:70-75 | the token is the one `getNextToken` would return, and `position` is unchanged |
| RootLexer.Lexer.Backtrack | lexer.ts:77-79 | `position` is set to the token's start |
| RootLexer.Lexer.HasMoreTokens | lexer.ts:26-28 | true exactly when the next token is not end-of-file, and `position` is unchanged |
| SrcLexer.Advance | src/Lexer.ts:126-135 | one character is consumed only while input remains, without changing the line; at the end of the input the cursor stays where it is |
| SrcLexer.Walk | src/Lexer.ts:93-99 | the cursor after a run ends exactly at the end of the run |
| SrcLexer.WalkCountsLines | src/Lexer.ts:93-97 | across a whitespace run the line grows by the number of `\n` in it; across a letter or digit run it does not change |
| SrcLexer.WalkCountsColumns | src/Lexer.ts:126-133 | without a `\n` in the run the column grows by one per character other than `\r` and `\n` |
| SrcLexer.NextToken | src/Lexer.ts:41-78 | the cursor after a token never moves backwards and never past the input |
| SrcLexer.NextTokenProgress | src/Lexer.ts:41-78 | every token but end of file consumes its own text, which is exactly the input just consumed; end of file comes exactly when the input is used up or only skipped whitespace is left, and at the end it leaves the cursor unchanged |
| SrcLexer.IdentifierAndNumberRuns | src/Lexer.ts:45-46 | a token is an identifier exactly when it starts with a letter and a number exactly when it starts with a digit; each is the maximal run of its class, with no decimal point, and moves the column by its length on the same line |
| SrcLexer.RunColumns | src/Lexer.ts:130-132 | a run without `\r` or `\n` moves the column once per character |
| SrcLexer.Lexer.constructor | src/Lexer.ts:31-38 | a new lexer is at pointer 0, line 1, column 1 and skips whitespace |
| SrcLexer.Lexer.KeepSpace | src/Lexer.ts:114-116 | whitespace is kept as a token from now on |
| SrcLexer.Lexer.IgnoreSpace | src/Lexer.ts:118-120 | whitespace is skipped from now on |
| SrcLexer.Lexer.GetNext | src/Lexer.ts:126-135 | returns the character at the pointer, or the empty string at the end, and moves the cursor as `Advance` does |
| SrcLexer.Lexer.Peek | src/Lexer.ts:122-124 | the character at the pointer, or the empty string exactly at the end; nothing moves |
| SrcLexer.Lexer.GetNumber | src/Lexer.ts:85-89 | the token is the maximal digit run at the pointer and the cursor ends after it |
| SrcLexer.Lexer.GetIdentifier | src/Lexer.ts:104-108 | the token is the maximal letter run at the pointer and the cursor ends after it |
| SrcLexer.Lexer.SkipWhitespace | src/Lexer.ts:93-99 | consumes the maximal whitespace run, starting a new line at column 1 at each `\n`, and returns its text |
| SrcLexer.Lexer.SkipOneWhitespace | src/Lexer.ts:94-98 | one whitespace character is consumed and appended, keeping the cursor equal to the walk over the run so far |
| SrcLexer.Lexer.GetSpace | src/Lexer.ts:91-102 | returns the whitespace run as a space token when space is kept, otherwise the token after it, as `NextToken` defines |
| SrcLexer.Lexer.GetNextToken | src/Lexer.ts:41-78 | the token and new cursor are those of `NextToken`, so every property proved about `NextToken` holds for the lexer |
| SrcLexer.SingleCharacters | src/Lexer.ts:48-75 | a character that starts no run is a one-character token of its listed kind, or illegal when unlisted, and the cursor moves past it on the same line |
| CodeAnalysisParser.KindsBetween | src/CodeAnalysis/Parser/Parser.ts:133-137 | the kinds of the tokens read between two indices, one per token |
| CodeAnalysisParser.KindsSplit | src/CodeAnalysis/Parser/Parser.ts:133-137 | the kinds read over two adjacent stretches join up into the kinds read over both |
| CodeAnalysisParser.KindsAround | src/CodeAnalysis/Parser/Parser.ts:63-65 | the kinds read before an operator, the operator and the kinds read after it are the kinds of the whole stretch |
| CodeAnalysisParser.KindsEnclosed | src/CodeAnalysis/Parser/Parser.ts:81-85 | a stretch that opens and closes with one token each reads the opening kind, the inner kinds and the closing kind |
| CodeAnalysisParser.Parser.constructor | src/CodeAnalysis/Parser/Parser.ts:21-26 | a new parser is at index 0 over the lexed tokens, which end with end of file |
| CodeAnalysisParser.Parser.Peek | src/CodeAnalysis/Parser/Parser.ts:122-127 | the token the offset places ahead, or the last token when that lies past the end |
| CodeAnalysisParser.Parser.NextToken | src/CodeAnalysis/Parser/Parser.ts:133-137 | returns the current token and moves the index on by one |
| CodeAnalysisParser.Parser.MatchToken | src/CodeAnalysis/Parser/Parser.ts:139-146 | true exactly when each token ahead has the given kind, in order |
| CodeAnalysisParser.Parser.ExpectToken | src/CodeAnalysis/Parser/Parser.ts:148-154 | a current token of the expected kind is consumed and returned; otherwise nothing is consumed, a mismatch naming the found kind, the expected kind and the line is reported, and a token like the current one is returned |
| CodeAnalysisParser.Parser.Any | src/CodeAnalysis/Parser/Parser.ts:156-158 | true exactly when the current token is not end of file |
| CodeAnalysisParser.Parser.Parse | src/CodeAnalysis/Parser/Parser.ts:28-33 | input that is only end of file is reported as an empty program and parses to no members; any other input gives at least one member; every member is well formed and end of file is consumed |
| CodeAnalysisParser.Parser.ParseProgram | src/CodeAnalysis/Parser/Parser.ts:35-44 | statements are read up to end of file, which is then consumed; diagnostics are only appended; every statement is well formed, and without diagnostics the statements and end of file account for every token read, in order |
| CodeAnalysisParser.Parser.ParseMember | src/CodeAnalysis/Parser/Parser.ts:38-41 | one round of the program loop always moves the index on, skipping the current token when the statement consumed nothing, and appends one well-formed statement |
| CodeAnalysisParser.Parser.ParseStatement | src/CodeAnalysis/Parser/Parser.ts:46-54 | an expression, or an assignment when `=` follows it: an expression statement is never followed by `=`, and an assignment consumed an `=` token; the statement is well formed, it consumes nothing only when a diagnostic was reported, and without diagnostics it accounts for every token read |
| CodeAnalysisParser.Parser.ParseBinaryExpression | src/CodeAnalysis/Parser/Parser.ts:56-68 | the result has the precedence-climbing shape under the parent precedence, so equal operators associate to the left and tighter ones nest to the right; it stops at a token that is no operator or binds no tighter than the parent; without diagnostics it accounts for every token read |
| CodeAnalysisParser.Parser.ParseOperation | src/CodeAnalysis/Parser/Parser.ts:63-65 | one round of the climbing loop consumes the operator and its right operand and builds a binary expression that keeps the climbing shape |
| CodeAnalysisParser.Parser.ParseUnaryExpression | src/CodeAnalysis/Parser/Parser.ts:70-78 | the result is a unary expression exactly when the current token is a prefix operator; prefix operators nest to the right before a primary expression; no binary operator sits at the top; without diagnostics it accounts for every token read |
| CodeAnalysisParser.Parser.ParseParenthesis | src/CodeAnalysis/Parser/Parser.ts:80-88 | the result is a parenthesized expression exactly when the current token is an opening parenthesis, and it keeps that token; a missing closing parenthesis is reported; the inner expression is climbed from precedence 0; otherwise a range, cell or literal; without diagnostics it accounts for every token read |
| CodeAnalysisParser.Parser.ParseRangeReference | src/CodeAnalysis/Parser/Parser.ts:90-98 | a range, cell or literal; a result that is not a range is never followed by a colon, and a range consumed a colon; its first operand is a cell exactly when an identifier and a number come first; without diagnostics it accounts for every token read |
| CodeAnalysisParser.Parser.ParseCellReference | src/CodeAnalysis/Parser/Parser.ts:100-107 | the result is a cell exactly when an identifier is followed by a number; the cell holds those two tokens, both are consumed and nothing is reported; otherwise it is the literal at the current token |
| CodeAnalysisParser.Parser.ParseLiteral | src/CodeAnalysis/Parser/Parser.ts:109-120 | the result is the current token; an identifier or number (or a token that already has the expected kind) is consumed without a diagnostic; any other token is not consumed and exactly one token mismatch against `Expression`, on its line, is reported |
| LookaheadParser.Mismatch | src/Parser.ts:17-24 | the first offset at which `match` stops lies between where it starts and the number of kinds |
| LookaheadParser.KindsAheadMeans | src/Parser.ts:15-27 | `match` succeeds exactly when every token ahead has its kind, and when it fails the token at the first mismatch has a different kind |
| LookaheadParser.MismatchMeansDiffers | src/Parser.ts:17-24 | from any offset on there is no mismatch exactly when every remaining kind matches, and a mismatch is a token whose kind differs |
| LookaheadParser.MismatchIsFirst | src/Parser.ts:17-24 | every kind before the first mismatch matches |
| LookaheadParser.MismatchAt | src/Parser.ts:19-22 | up to the first mismatch, a kind differs exactly at the mismatch |
| LookaheadParser.ParseShapes | src/Parser.ts:33-42 | an identifier, a number and a colon, or an identifier and a colon, start a range whose left cell they form and whose colon is consumed between the two cells; an identifier and a number not followed by a colon form a cell; anything else is returned as the single next token |
| LookaheadParser.ParseAt | src/Parser.ts:33-42 | `parse` always consumes at least one token and at most five; a single token is returned as itself, one position on |
| LookaheadParser.CellAt | src/Parser.ts:44-48 | a cell consumes at most an identifier and then a number; a non-empty column is the identifier it consumed and a non-empty row the number it consumed last |
| LookaheadParser.Parser.constructor | src/Parser.ts:7-13 | a new parser has an empty buffer, pointer 0 and has consumed nothing |
| LookaheadParser.Parser.Lex | src/Parser.ts:18 | the tokenizer yields the next token of its stream and counts one more token produced |
| LookaheadParser.Parser.Match | src/Parser.ts:15-27 | the result is whether the tokens ahead have the given kinds; nothing is consumed and the pointer is back at its start; the buffer grows to hold every token examined, up to and including the first that differs |
| LookaheadParser.Parser.Compare | src/Parser.ts:17-24 | the loop of `match` compares kind by kind, buffering each token it reaches, and reports whether all matched |
| LookaheadParser.Parser.Fill | src/Parser.ts:18 | a token is lexed into the buffer only when the pointer has reached its end, so the buffered tokens stay the stream's tokens in order |
| LookaheadParser.Parser.ParseToken | src/Parser.ts:60-63 | the next token of the stream is consumed, from the front of the buffer when it holds one and from the tokenizer otherwise |
| LookaheadParser.Parser.ParseColumn | src/Parser.ts:55-58 | an identifier ahead is consumed and its text returned; otherwise the empty text, consuming nothing |
| LookaheadParser.Parser.ParseRow | src/Parser.ts:50-53 | a number ahead is consumed and its text returned; otherwise the empty text, consuming nothing |
| LookaheadParser.Parser.ParseCell | src/Parser.ts:44-48 | the cell and the new position are those of `CellAt`: an optional column then an optional row |
| LookaheadParser.Parser.Parse | src/Parser.ts:29-42 | the node and the new position are those of `ParseAt`, so the shapes of `ParseShapes` hold for every parse |
| Rewriter.Rewrite | src/CodeAnalysis/Rewriter/Rewriter.ts:15-33 | numbers, cell and range references are returned unchanged, an unknown kind fails with a missing method error, and every successful rewrite is no heavier than its input and in normal form: no parentheses, no unary plus, no unary operator applied directly to the same operator; a binary expression rewrites to a binary expression and a program to a program, and an input already in normal form keeps its stack of leading unary operators |
| Rewriter.RewriteAll | src/CodeAnalysis/Rewriter/Rewriter.ts:35-38 | a rewritten program keeps its number of statements, each in normal form |
| Rewriter.RewriteAllInOrder | src/CodeAnalysis/Rewriter/Rewriter.ts:35-38 | each statement of a program is rewritten on its own, in order; the program fails exactly when some statement fails, and then with the error of the first one that does |
| Rewriter.RewriteUnary | src/CodeAnalysis/Rewriter/Rewriter.ts:40-48 | a unary expression rewrites to normal form: a doubled operator collapses to the inner operand of the first rewrite; otherwise the operand as that rewrite left it in place is rewritten again, and under unary plus that result once more; a unary expression already in normal form keeps its operator over its operand's stack of unary operators |
| Rewriter.Updated | src/CodeAnalysis/Rewriter/Rewriter.ts:35-76 | the node as its own fields stand after a rewrite: no heavier, of the same kind with the same operator, leaves unchanged, a program with as many statements; rewriting it gives a result with the same leading unary operators as rewriting the original |
| Rewriter.UpdatedUnary | src/CodeAnalysis/Rewriter/Rewriter.ts:40-48 | a unary node keeps its operator and holds the operand as assigned at line 45 (and rewritten again in place at line 46 under unary plus); rewriting it again leads with the same unary operators as the first rewrite |
| Rewriter.UpdatedBinary | src/CodeAnalysis/Rewriter/Rewriter.ts:54-76 | a binary node keeps its operator and holds the stored left and right operands, the right one's operands rewritten in place before a re-association |
| Rewriter.LeftOperand | src/CodeAnalysis/Rewriter/Rewriter.ts:55-59 | the stored left operand is in normal form and never unary, and a failing rewrite of the operand is the failure |
| Rewriter.RightOperand | src/CodeAnalysis/Rewriter/Rewriter.ts:61-65 | the stored right operand is in normal form, and is the plain rewrite of the operand unless it is parenthesized under a minus |
| Rewriter.RewriteSecondPass | src/CodeAnalysis/Rewriter/Rewriter.ts:40-76 | `-(-(1 + -(2 + 3)) * 4)` rewrites to `-(((1 - 2) - 3) * 4)`: the second rewrite at line 45 re-associates the left operand that the first one switched and stored |
| Rewriter.FirstPassStoresSwitch | src/CodeAnalysis/Rewriter/Rewriter.ts:54-59 | the first rewrite of `-(1 + -(2 + 3)) * 4` stores the switched left operand `1 - (2 - 3)` in the product node |
| Rewriter.SecondPassReassociates | src/CodeAnalysis/Rewriter/Rewriter.ts:67-73 | `(1 - (2 - 3)) * 4` rewrites to `((1 - 2) - 3) * 4` |
| Rewriter.NegatedSumKeepsInnerMinus | src/CodeAnalysis/Rewriter/Rewriter.ts:40-52 | `-(1 + -(2 + 3))` rewrites to `-(1 + -(2 + 3))` with its parentheses dropped |
| Rewriter.SumLosesParentheses | src/CodeAnalysis/Rewriter/Rewriter.ts:54-76 | `1 + -(2 + 3)` rewrites to the same tree without its inner parentheses, holds that tree in place, and a second rewrite leaves it unchanged |
| Rewriter.InnerMinusStays | src/CodeAnalysis/Rewriter/Rewriter.ts:40-52 | `-(2 + 3)` only loses its parentheses |
| Rewriter.RewriteBinary | src/CodeAnalysis/Rewriter/Rewriter.ts:54-59 | a binary expression rewrites to a binary expression in normal form, its left operand switched when it is unary |
| Rewriter.RewriteRight | src/CodeAnalysis/Rewriter/Rewriter.ts:61-76 | the right operand of a binary expression, switched under a minus when parenthesized, rewrites to normal form, and the result is a binary expression |
| Rewriter.Reassociate | src/CodeAnalysis/Rewriter/Rewriter.ts:67-75 | `L op (A op' B)` of equal precedence becomes `(L op A) op' B`, rewritten again, and ends in normal form |
| Rewriter.Switch | src/CodeAnalysis/Rewriter/Rewriter.ts:79-107 | a successful switch has no unary operator or parentheses at its top and is in normal form; a program or unknown kind fails with a missing switch method error |
| Rewriter.SwitchTwice | src/CodeAnalysis/Rewriter/Rewriter.ts:97-103 | on sums and differences of leaves the switch flips every `+` and `-`, so switching twice gives the tree back |
| AnalysisBinder.BindBinaryOperatorKind | src/analysis/binder.ts:130-143 | `+`, `-`, `*`, `/` and `^` map to addition, subtraction, multiplication, division and exponentiation, each bound kind from exactly one operator |
| AnalysisBinder.BindUnaryOperatorKind | src/analysis/binder.ts:155-162 | prefix `+` maps to identity and prefix `-` to negation, each from exactly one operator |
| AnalysisBinder.CellNodes | src/analysis/binder.ts:168-174 | the cell references an expression binds, in binding order, are all cell-reference nodes |
| AnalysisBinder.ReportsSplit | src/analysis/binder.ts:105-113 | draining the queue reports, in queue order, one undeclared-cell diagnostic per reference to an undeclared name and one circular-dependency diagnostic per reference that references the target, and nothing else |
| AnalysisBinder.ReportsForSplit | src/analysis/binder.ts:106-112 | one queued reference yields its circular-dependency diagnostic (if any) before its undeclared-cell diagnostic (if any) |
| AnalysisBinder.ReportsIgnoreTarget | src/analysis/binder.ts:105-113 | what the loop reports does not depend on the target's own dependency list, which the same loop grows |
| AnalysisBinder.Binder.constructor | src/analysis/binder.ts:65-67 | a new binder starts with an empty reference queue, no declared cells and no diagnostics |
| AnalysisBinder.Binder.CreateCell | src/analysis/binder.ts:31-38 | a declared name gives back its declared cell and creates nothing; an undeclared name gives a new cell with that name, no expression and no dependencies |
| AnalysisBinder.Binder.ClearStack | src/analysis/binder.ts:40-42 | the reference queue is empty afterwards |
| AnalysisBinder.Binder.NextReference | src/analysis/binder.ts:48-50 | the queue is first in, first out: the oldest reference is removed and returned |
| AnalysisBinder.Binder.RegisterReference | src/analysis/binder.ts:52-54 | the reference is appended at the back of the queue |
| AnalysisBinder.Binder.DeclareCell | src/analysis/binder.ts:56-58 | afterwards the cell's name is declared and maps to that cell, overwriting an earlier declaration; no other name changes |
| AnalysisBinder.Binder.Bind | src/analysis/binder.ts:69-89 | the result is the bound tree of the node (operators mapped to their bound kinds, numbers parsed, parentheses transparent, unknown kinds bound to an error node with a binder-method diagnostic); no declared name is ever dropped; for an expression without assignments, the queue gains one reference per cell reference in order and only unknown kinds are reported |
| AnalysisBinder.Binder.BindProgram | src/analysis/binder.ts:91-95 | one bound statement per statement, in order; no declared name is dropped |
| AnalysisBinder.Binder.BindCellReference | src/analysis/binder.ts:168-174 | the reference is queued at the back with the node's span; its cell is the declared one, or a new one when the name is undeclared |
| AnalysisBinder.Binder.BindUnaryExpression | src/analysis/binder.ts:145-153 | the operand's bound tree under the bound unary kind; for an operand without assignments, the operand's references are queued and only its unknown kinds are reported |
| AnalysisBinder.Binder.BindBinaryExpression | src/analysis/binder.ts:123-128 | both operands bound under the bound binary kind; for operands without assignments, the left operand's references are queued before the right operand's, and its diagnostics come first |
| AnalysisBinder.Binder.BindCellAssignment | src/analysis/binder.ts:97-121 | for a cell target: the existing or a fresh cell is the target, it keeps the bound expression, is declared afterwards and the queue ends empty; when the right-hand side holds no assignment, the target also depends exactly on its references in source order, is the only new declaration, and the diagnostics are the unknown kinds followed by the drain's reports; for any other target: `cantUseAsAReference` is reported first, the right-hand side is still bound, and the result is an error node |
| AnalysisBinder.Binder.AssignCell | src/analysis/binder.ts:99-116 | the cell-target branch: the same effect as above, with the reference queue cleared before the right-hand side is bound |
| AnalysisBinder.Binder.BindTargetAndExpression | src/analysis/binder.ts:100-102 | the target is looked up or created before the right-hand side is bound; for a right-hand side without assignments, only its references are queued and the declarations are unchanged |
| AnalysisBinder.Binder.Settle | src/analysis/binder.ts:103-115 | the target holds the expression, depends on exactly the queued cells, is declared only after the queue is drained, and the diagnostics gain the drain's reports |
| AnalysisBinder.Binder.SetExpression | src/analysis/binder.ts:103-104 | the target's expression is set and its dependencies cleared; every other cell is unchanged |
| AnalysisBinder.Binder.DrainOne | src/analysis/binder.ts:106-112 | one queued reference is taken from the front, tracked by the target, and reported if circular or undeclared; no other cell changes |
| AnalysisBinder.Binder.Drain | src/analysis/binder.ts:105-113 | the queue is emptied; the target gains every queued cell as a dependency in queue order, and the diagnostics gain exactly the reports for the queue |
| BlockBinder.BindBinaryOperatorKind | src/analysis/binder/binder.ts:118-131 | `+`, `-`, `*`, `/` and `^` map to addition, subtraction, multiplication, division and exponentiation, each bound kind from exactly one operator |
| BlockBinder.BindUnaryOperatorKind | src/analysis/binder/binder.ts:143-150 | prefix `+` maps to identity and prefix `-` to negation, each from exactly one operator |
| BlockBinder.References | src/analysis/binder/binder.ts:94-109 | the cell references of an expression, in binding order, are all cell-reference nodes |
| BlockBinder.DependenciesAreReferences | src/analysis/binder/binder.ts:77-84 | an assignment's dependency list is its right-hand side's cell references: one bound reference per syntax reference, in source order, each with that reference's span and referring to the name's assignment or to an implicit one for that name |
| BlockBinder.QueuedInSequence | src/analysis/binder/binder.ts:111-116 | the left operand's references are queued before the right operand's |
| BlockBinder.UndeclaredOnlyWhenExplicit | src/analysis/binder/binder.ts:94-105 | without explicit declarations, binding an expression reports nothing but binder-method diagnostics for unknown kinds |
| BlockBinder.UndeclaredOnlyWhenExplicitAll | src/analysis/binder/binder.ts:59-65 | the same holds for a sequence of statements |
| BlockBinder.Binder.constructor | src/analysis/binder/binder.ts:29 | a binder starts in a root scope with no assignments, no references and no diagnostics |
| BlockBinder.Binder.Bind | src/analysis/binder/binder.ts:31-53 | the result is the bound tree of the node (operators mapped, numbers parsed, parentheses transparent, unknown kinds bound to an error node with a binder-method diagnostic); the scope's reference list grows by the node's references in binding order; diagnostics are exactly those of the node in binding order; the scope is the same afterwards |
| BlockBinder.Binder.BindStatements | src/analysis/binder/binder.ts:60-63 | one bound statement per statement, in order, each the bound tree of its statement; reports and new cells add up over the statements |
| BlockBinder.Binder.BindCompilationUnit | src/analysis/binder/binder.ts:59-65 | the compilation unit binds its statements in order, one bound statement per statement |
| BlockBinder.Binder.BindBlock | src/analysis/binder/binder.ts:67-75 | the statements are bound in a child scope and afterwards the binder's scope and scope stack are exactly as before |
| BlockBinder.Binder.BindCellAssignment | src/analysis/binder/binder.ts:77-84 | the reference list is emptied before the right-hand side is bound, the bound assignment depends on the references collected from it, and the scope's list is empty afterwards; a target with no assignment gets the newest cell |
| BlockBinder.Binder.BindCell | src/analysis/binder/binder.ts:86-92 | the cell of the name's assignment, or a new cell with that name |
| BlockBinder.Binder.BindCellReference | src/analysis/binder/binder.ts:94-109 | the bound reference is appended to the scope's list; a name with no assignment refers to an implicit assignment of literal 0 to a new cell and is reported undeclared only under explicit declarations |
| BlockBinder.Binder.BindBinaryExpression | src/analysis/binder/binder.ts:111-116 | left is bound before right, so its references and diagnostics come first; the operator is mapped to its bound kind |
| BlockBinder.Binder.BindUnaryExpression | src/analysis/binder/binder.ts:133-141 | the operand is bound and the operator mapped (`+` to Identity, `-` to Negation) |
| ReferenceBinder.BindOperatorKind | src/Binder.ts:86-99 | `+ - * /` map to the four arithmetic kinds; exactly the other operators throw `MissingOperatorKind` with that operator |
| ReferenceBinder.BindUnaryOperatorKind | src/Binder.ts:109-118 | `+` and `-` map to Identity and Negation; exactly the other operators throw `MissingOperatorKind` |
| ReferenceBinder.Bind | src/Binder.ts:36-76 | a bound syntax tree keeps one bound expression per expression; a declaration binds only with a cell reference on its left, is named after that cell, refers to the names its expression references and is referenced by nobody yet; an unknown kind throws `MissingBindingMethod` |
| ReferenceBinder.BindAll | src/Binder.ts:152-155 | a successful binding of a syntax tree has one bound expression per expression |
| ReferenceBinder.BindSucceedsIffSupported | src/Binder.ts:36-60 | binding succeeds exactly on trees of known kinds and operators whose declarations have a cell on the left; every other tree throws |
| ReferenceBinder.BindAllSucceedsIffSupported | src/Binder.ts:152-155 | a syntax tree binds exactly when each of its expressions does |
| ReferenceBinder.BindAllKeepsFailure | src/Binder.ts:152-155 | expressions are bound in order and the first one that throws decides the error; later expressions do not matter |
| ReferenceBinder.RangeOfCells | src/Binder.ts:126-130 | a range of two cell references is named by the two cell names (column then row) joined by ":" |
| ReferenceBinder.Binder.constructor | src/Binder.ts:29-33 | a binder over a new environment starts with no referred names, no registered declarations and an empty bag |
| ReferenceBinder.Binder.Throw | src/Binder.ts:58 | the error thrown is first reported in the binder's own bag |
| ReferenceBinder.Binder.BindNode | src/Binder.ts:36-60 | the result is the bound tree or the first error; on success the environment's stack gains exactly the referred names in binding order and the declarations are registered in order; a failure adds at most its own error to the bag |
| ReferenceBinder.Binder.BindSyntaxTree | src/Binder.ts:152-155 | the expressions are bound in order, with the same effect on the environment |
| ReferenceBinder.Binder.BindCellReference | src/Binder.ts:133-138 | the name is the column text followed by the row text, and it is pushed onto the environment's stack |
| ReferenceBinder.Binder.BindRangeReference | src/Binder.ts:126-130 | left is bound before right, and the range's name is the two references joined by ":" |
| ReferenceBinder.Binder.BindUnaryExpression | src/Binder.ts:102-106 | the operator is mapped before the operand is bound, so an unknown operator throws first |
| ReferenceBinder.Binder.BindBinaryExpression | src/Binder.ts:78-83 | left operand, then operator, then right operand, the first failure winning |
| ReferenceBinder.Binder.BindReferenceDeclaration | src/Binder.ts:62-75 | a cell on the left is referred to here; the right-hand side is bound by a new binder over a new environment whose stack becomes the declaration's referencing list; the declaration is registered here; any other left side throws `CantUseAsAReference` |
| CellScope.ResolveAsWritten | src/CodeAnalysis/Binder/BoundScope.ts:41-49 | as written, a lookup can only ever find the name in the scope it started from |
| CellScope.ResolveAsWrittenNeverReachesParent | src/CodeAnalysis/Binder/BoundScope.ts:45-46 | a name held only by the parent is never found: the lookup calls itself on the same scope until the call stack is exhausted |
| CellScope.Resolve | src/CodeAnalysis/Binder/BoundScope.ts:41-49 | the intended lookup finds the nearest scope up the chain that holds the name, and reports not found exactly when no scope holds it |
| CellScope.ResolveAgreesOnRoot | src/CodeAnalysis/Binder/BoundScope.ts:41-49 | on a root scope, which has no parent, the code as written and the intended lookup agree |
| CellScope.Detect | src/CodeAnalysis/Binder/BoundScope.ts:73-84 | the check throws "used before its declaration" exactly when the name is among its own dependencies, never deeper down; a name not found is one with no cell |
| CellScope.NoErrorMeansNoCycle | src/CodeAnalysis/Binder/BoundScope.ts:73-84 | when the circularity check throws nothing, no chain of dependencies within the searched depth leads back to the name, and every dependency met is declared |
| CellScope.CircularMeansDirectEdge | src/CodeAnalysis/Binder/BoundScope.ts:77-81 | a reported circular dependency names a cell whose own dependencies contain the name |
| CellScope.Relink | src/CodeAnalysis/Binder/BoundScope.ts:86-92 | relinking never adds or removes a cell; an undeclared name throws `NameNotFound` with nothing changed, and that is the only kind of error it throws |
| CellScope.RelinkLinks | src/CodeAnalysis/Binder/BoundScope.ts:86-92 | after a successful relink the cell is in the `Dependents` of every new dependency and of no dropped one, and holds the new dependencies, expression and value |
| CellScope.TryDeclare | src/CodeAnalysis/Binder/BoundScope.ts:51-63 | a successful declaration adds exactly the declared name, and reports true exactly when the name was new; a throw adds no cell, and any error but a missing name is the circularity check's, thrown before anything changes |
| CellScope.TryDeclareEffects | src/CodeAnalysis/Binder/BoundScope.ts:51-63 | a name among its own dependencies throws before anything changes; a new name gets a cell of value 0 with the given dependencies and no dependents, and the result is true; an existing cell takes the new dependencies, leaves the `Dependents` of each dependency it drops, and the result is false |
| CellScope.DeclaringKeepsSets | src/CodeAnalysis/Binder/BoundScope.ts:51-63 | declaring keeps every `Dependents` list free of duplicates |
| CellScope.AssigningKeepsSets | src/CodeAnalysis/Binder/BoundScope.ts:86-92 | assigning keeps every `Dependents` list free of duplicates |
| CellScope.UnnotifyRemoves | src/CodeAnalysis/Binder/BoundScope.ts:88 | the unlink loop removes the name from the `Dependents` of every dropped dependency and touches no other cell and no `Dependencies` |
| CellScope.NotifyAllAdds | src/CodeAnalysis/Binder/BoundScope.ts:90 | the link loop only adds the name to the `Dependents` of each dependency: every other member, field and cell stays |
| CellScope.ForChange | src/CodeAnalysis/Binder/BoundScope.ts:96-105 | every yielded name is a declared dependent that was not already pending; the only error is a dependent with no cell; a run without error leaves `ForChange` empty |
| CellScope.YieldsEachDependentOnce | src/CodeAnalysis/Binder/BoundScope.ts:96-105 | over declared dependents, the generator yields each one not already pending exactly once, in order, and leaves `ForChange` empty |
| CellScope.Cell.constructor | src/CodeAnalysis/Binder/BoundScope.ts:8-15 | a cell holds the name, value, expression and the two sets it is given |
| CellScope.Cell.Notify | src/CodeAnalysis/Binder/BoundScope.ts:17-19 | the name joins `Dependents` once; nothing else changes |
| CellScope.Cell.DoNotNotify | src/CodeAnalysis/Binder/BoundScope.ts:21-23 | the name leaves `Dependents`; nothing else changes |
| CellScope.BoundScope.constructor | src/CodeAnalysis/Binder/BoundScope.ts:26-35 | a scope starts with no cells, nothing pending, no names and no diagnostics |
| CellScope.BoundScope.PushCell | src/CodeAnalysis/Binder/BoundScope.ts:37-39 | the name joins `Names` once |
| CellScope.BoundScope.TryLookUpCell | src/CodeAnalysis/Binder/BoundScope.ts:65-71 | a declared name gives its cell; an absent one reports and throws `NameNotFound` |
| CellScope.Unnotify | src/CodeAnalysis/Binder/BoundScope.ts:60 | dropping dependencies changes no name's presence in the scope, and the only error it can throw is a name not found |
| CellScope.NotifyAll | src/CodeAnalysis/Binder/BoundScope.ts:90 | notifying the dependencies changes no name's presence in the scope, and the only error it can throw is a name not found |
| CellScope.BoundScope.DoNotNotifyCell | src/CodeAnalysis/Binder/BoundScope.ts:60 | the name leaves the `Dependents` of exactly one cell, and no other cell changes |
| CellScope.BoundScope.NotifyCell | src/CodeAnalysis/Binder/BoundScope.ts:90 | the name joins the `Dependents` of exactly one cell, and no other cell changes |
| CellScope.BoundScope.LookUpAndUnnotify | src/CodeAnalysis/Binder/BoundScope.ts:60 | a declared dependency loses the name from its `Dependents`; an undeclared one is reported as not found and nothing changes |
| CellScope.BoundScope.LookUpAndNotify | src/CodeAnalysis/Binder/BoundScope.ts:90 | a declared dependency gains the name in its `Dependents`; an undeclared one is reported as not found and nothing changes |
| CellScope.BoundScope.SetDependencies | src/CodeAnalysis/Binder/BoundScope.ts:89 | one cell takes the new dependencies and nothing else changes |
| CellScope.BoundScope.SetFormula | src/CodeAnalysis/Binder/BoundScope.ts:91-92 | one cell takes the new expression and value and nothing else changes |
| CellScope.BoundScope.DetectCircularDependencies | src/CodeAnalysis/Binder/BoundScope.ts:73-84 | the error is the one the recursive check defines (self-dependency first, then per dependency in order: not found, direct cycle, deeper search), and it is reported |
| CellScope.BoundScope.UnnotifyEach | src/CodeAnalysis/Binder/BoundScope.ts:88 | the unlink loop over the cells, with the same result and cells as its value-level definition |
| CellScope.BoundScope.NotifyEach | src/CodeAnalysis/Binder/BoundScope.ts:90 | the link loop over the cells, with the same result and cells as its value-level definition |
| CellScope.BoundScope.AddCell | src/CodeAnalysis/Binder/BoundScope.ts:55-56 | a new cell of value 0 with the given dependencies and no dependents; no other cell changes |
| CellScope.BoundScope.TryDeclareCell | src/CodeAnalysis/Binder/BoundScope.ts:51-63 | the cells and the result are those of the declaration step (see `TryDeclareEffects`), and a thrown error is reported |
| CellScope.BoundScope.RelinkCell | src/CodeAnalysis/Binder/BoundScope.ts:87-92 | the cells are those of the relink step (see `RelinkLinks`) |
| CellScope.BoundScope.DetectAndNotifyForChange | src/CodeAnalysis/Binder/BoundScope.ts:96-105 | the yielded names, the error and `ForChange` are those of the generator run to its end (see `YieldsEachDependentOnce`) |
| CellScope.BoundScope.Assign | src/CodeAnalysis/Binder/BoundScope.ts:86-94 | the cell is relinked and takes the expression and value, then its direct dependents are yielded; a missing name throws with no cell changed; the diagnostics gain exactly the error thrown, if any |
| CellScope.BoundScope.SetValueForCell | src/CodeAnalysis/Binder/BoundScope.ts:107-124 | a declared cell takes the value and nothing else changes, with nothing reported; an absent name is reported as `NameNotFound` and thrown |
| CellScope.BoundScope.FactoryReset | src/CodeAnalysis/Binder/BoundScope.ts:126-128 | no cell is left |
| CellGraph.MapSetStores | src/Cell.ts:21 | `Map.set` holds the cell under its name and every entry with another name as before; an existing key keeps its position and a new key comes last |
| CellGraph.MapDeleteRemoves | src/Cell.ts:30 | `Map.delete` leaves exactly the entries with another name, in their old order |
| CellGraph.MapSet | src/Cell.ts:21 | after `set` the map holds the cell |
| CellGraph.Diagnostics.Report | src/Cell.ts:35 | a report is appended after the earlier ones |
| CellGraph.Search | src/Cell.ts:33-52 | the search returns null exactly when it reports nothing, otherwise one diagnostic naming the returned cell; a reported circular dependency names a cell that has the subject among its subjects |
| CellGraph.SearchEach | src/Cell.ts:43-49 | the loop over the subjects returns the first non-null result, with the same guarantees |
| CellGraph.NullMeansNoPath | src/Cell.ts:42-51 | a null result is sound: no cell reachable from this one along subjects, at any depth, has a direct edge to the subject |
| CellGraph.CircularMeansPath | src/Cell.ts:38-49 | a reported circular dependency is real: some cell reachable from this one along subjects has a direct edge to the subject |
| CellGraph.Cell.constructor | src/Cell.ts:7-18 | a cell holds the name and the `Subjects` and `Observers` maps it is given |
| CellGraph.Cell.Watch | src/Cell.ts:20-23 | the subject is stored among the subjects under its name and this cell among the subject's observers, so both directions of the edge exist; maps stay keyed |
| CellGraph.Cell.Notify | src/Cell.ts:25-27 | the observer is stored under its name, replacing any entry with that name |
| CellGraph.Cell.ClearObserver | src/Cell.ts:29-31 | the observer with that name is removed |
| CellGraph.Cell.ClearSubjects | src/Cell.ts:54-57 | every former subject forgets this cell as an observer, and the subjects are emptied |
| CellGraph.Cell.HasSubject | src/Cell.ts:33-52 | the result and the diagnostics are those of the depth-first search (a cell already on the path is `InvalidCellState`, a direct edge is `CircularDependency`, otherwise the first non-null result over the subjects), and the set of cells being checked is on exit what it was on entry |
| CellGraph.Cell.SearchSubjects | src/Cell.ts:43-49 | the loop returns the first non-null result of the subjects in order, and restores the set of cells being checked |
| Environment.Include | src/Environment.ts:27-29 | the name is in the result, which holds exactly the old names and the new one, extends the old list by at most one entry, and has no duplicates when the old list had none |
| Environment.Register | src/Environment.ts:23-31 | registration changes no name's presence in the store |
| Environment.RegisterClosedForm | src/Environment.ts:23-31 | after registration each referenced node has the name at the end of its `ReferencedBy` unless it was there already, and every other node and field is unchanged |
| Environment.RegisterListsOnce | src/Environment.ts:27-29 | registration keeps a node's earlier `ReferencedBy` entries in order, adds the name to every referenced node, and never lists a name twice |
| Environment.RegisterTwice | src/Environment.ts:23-31 | registering the same name with the same references again changes nothing |
| Environment.RegisterStep | src/Environment.ts:24-30 | one more round of the loop adds the name to one more referenced node |
| Environment.FirstUndefined | src/Environment.ts:24-26 | the index of the first referenced name with no node: every name before it has one, and the name at it has none |
| Environment.Environment.constructor | src/Environment.ts:5-8 | a new environment holds no nodes, no values and no diagnostics |
| Environment.Environment.GetValueFromCell | src/Environment.ts:18-21 | a stored value is returned without a diagnostic; a missing one is reported as undefined and no value is returned |
| Environment.Environment.RegisterSelf | src/Environment.ts:23-31 | the name is registered with the referenced nodes in order up to the first undefined one, which is reported and returned; the names before it stay registered and nothing else changes |
| Environment.Environment.AddReferencedBy | src/Environment.ts:27-29 | the node gains the name at the end of its `ReferencedBy` unless already there, and no other node changes |
| Environment.Environment.SetValueForReference | src/Environment.ts:10-16 | the node and its value are stored under its name, the name is registered with the nodes it refers to, and the value is returned, or the first undefined reference is reported as a failure |
| Evaluator.Run | src/runtime/evaluator.ts:19-39 | evaluating a bound node never removes or rewrites a reported diagnostic |
| Evaluator.RunAll | src/runtime/evaluator.ts:45-53 | a statement list returns the accumulator, which holds the last statement's value; with no statements the state is unchanged and the current accumulator is returned |
| Evaluator.PureExpressionsOnlyRead | src/runtime/evaluator.ts:41-43 | an expression without assignments changes no state and evaluates to its value over the current cells: a cell reference returns the stored value and does not evaluate the cell's formula again; identity returns the operand and negation its negation |
| Evaluator.AssignmentStores | src/runtime/evaluator.ts:55-58 | an assignment evaluates its expression once, stores the value in its cell, changes nothing else, and returns the value |
| Evaluator.LastAssignmentIsResult | src/runtime/evaluator.ts:45-48 | a compilation unit ending in an assignment evaluates to the assigned value, which is both the accumulator and the cell's value afterwards |
| Evaluator.Evaluator.constructor | src/runtime/evaluator.ts:15-17 | the accumulator starts at 0 with no diagnostics |
| Evaluator.Evaluator.Evaluate | src/runtime/evaluator.ts:19-39 | the new state and the result are those of the evaluation function: operands left before right, an unknown kind reported and 0 |
| Evaluator.Evaluator.EvaluateStatements | src/runtime/evaluator.ts:45-53 | each statement's value becomes the accumulator in order, and the accumulator is returned |
| Evaluator.Evaluator.EvaluateCellAssignment | src/runtime/evaluator.ts:55-58 | the value returned is the value stored in the target cell |
| Evaluator.Evaluator.EvaluateBinaryExpression | src/runtime/evaluator.ts:60-75 | left, then right, then the operator for the kind |
| Evaluator.Evaluator.EvaluateUnaryExpression | src/runtime/evaluator.ts:77-85 | the operand for Identity and its negation for Negation |
| Diagnostics.PhaseOf | src/CodeAnalysis/DiagnosticBag.ts:23-73 | a report belongs to the lexer exactly when it is a bad token, to the parser exactly when it is a token mismatch, to the environment exactly for an undeclared reference or a missing value, to the evaluator exactly for a missing evaluation method or an empty program, and to the binder otherwise |
| Diagnostics.Template | src/CodeAnalysis/DiagnosticBag.ts:23-73 | each one-argument message ends with a full stop after its argument |
| Diagnostics.Message | src/CodeAnalysis/DiagnosticBag.ts:23-73 | a one-argument message is the argument verbatim between its reporter's fixed prefix and suffix, and every message ends with a full stop |
| Diagnostics.Diagnosis | src/CodeAnalysis/DiagnosticBag.ts:23-73 | the diagnostic a reporter pushes carries the reporter's phase and a message that holds a one-argument reporter's argument verbatim and ends with a full stop |
| Diagnostics.ArgumentRecoverable | src/CodeAnalysis/DiagnosticBag.ts:23-73 | the argument can be read back from a message as what lies between its prefix and suffix |
| Diagnostics.MessageDeterminesArgument | src/CodeAnalysis/DiagnosticBag.ts:23-73 | two reports of one reporter with the same message had the same argument |
| Diagnostics.DiagnosticBag.constructor | src/CodeAnalysis/DiagnosticBag.ts:8 | a new bag is empty |
| Diagnostics.DiagnosticBag.Any | src/CodeAnalysis/DiagnosticBag.ts:10-12 | true exactly when something has been reported |
| Diagnostics.DiagnosticBag.Clear | src/CodeAnalysis/DiagnosticBag.ts:14-16 | the bag is emptied and reports nothing |
| Diagnostics.DiagnosticBag.ReportError | src/CodeAnalysis/DiagnosticBag.ts:18-21 | the diagnostic is pushed on top and returned, and earlier entries stay as they were, in order |
| Diagnostics.DiagnosticBag.Report | src/CodeAnalysis/DiagnosticBag.ts:23-73 | each reporter pushes and returns the diagnostic of its phase and message |
| LexingSpan.SpanText | src/lexing/span.ts:14-21 | a span inside the text reads exactly the text it covers; an empty or reversed span reads the empty string |
| LexingSpan.LineAndColumnFollowStart | src/lexing/span.ts:6-12 | two spans that start at the same position report the same line and column, whatever their ends |
| LexingSpan.LineText | src/lexing/line.span.ts:15-17 | a line's text is the text from its start up to its end less the line break |
| LexingSpan.LineLength | src/lexing/line.span.ts:19-21 | a line's length and its line break together make up the span, and the length is never negative when the break fits |
| LexingSpan.LineLengthIsTextLength | src/lexing/line.span.ts:19-21 | a line's length is the length of its text, and together with the line break it covers the whole span |
| LexingSpan.Clip | src/lexing/line.span.ts:30-37 | a token inside the line is yielded unchanged; any other keeps its kind and is cut to the part of the line without its break |
| LexingSpan.LineTokensWalk | src/lexing/line.span.ts:27-39 | the i-th token yielded is the i-th token from the starting index, clipped, none of those ends the line, and the walk stops only at a line break or end-of-file token or at the end of the tokens |
| LexingSpan.GetTokens | src/lexing/line.span.ts:23-40 | the `do`/`while` walk yields exactly the tokens `LineTokens` gives, in order |
| SyntaxPrint.Fields | src/CodeAnalysis/SyntaxNode.ts:11-13 | the fields of a node that are syntax nodes, in declaration order, each strictly smaller than the node |
| SyntaxPrint.GetChildren | src/CodeAnalysis/SyntaxNode.ts:10-19 | one child per syntax-node field, in field order, with `isLast` set on exactly the final one |
| SyntaxPrint.Connector | src/CodeAnalysis/SyntaxNode.ts:29 | the connector before a child's kind is four characters wide and holds no line break |
| SyntaxPrint.Pad | src/CodeAnalysis/SyntaxNode.ts:29 | the indentation grows by four characters without a line break at each level |
| SyntaxPrint.Printed | src/CodeAnalysis/SyntaxNode.ts:26-32 | a node without children prints as the empty string |
| SyntaxPrint.Print | src/CodeAnalysis/SyntaxNode.ts:26-32 | the loop over the children builds exactly the printed subtree: each child's line followed by its own subtree one level deeper |
| SyntaxPrint.PrintedInOrder | src/CodeAnalysis/SyntaxNode.ts:28-30 | children are printed in field order: the text of the first children is a prefix of the whole |
| SyntaxPrint.PrintTree | src/CodeAnalysis/SyntaxNode.ts:26 | a tree printed with its defaults is one last-child line for its root followed by the root's subtree |
| SyntaxPrint.Size | src/CodeAnalysis/SyntaxNode.ts:10-19 | every subtree holds at least its own node |
| SyntaxPrint.BreaksAppend | src/CodeAnalysis/SyntaxNode.ts:29 | line breaks of joined texts add up |
| SyntaxPrint.NoBreaks | src/CodeAnalysis/SyntaxNode.ts:29 | a text without a line break counts none |
| SyntaxPrint.OneLinePerDescendant | src/CodeAnalysis/SyntaxNode.ts:26-32 | when no kind and not the indentation holds a line break, the printed subtree has exactly one line per node below the root |
| SyntaxPrint.OneLinePerChild | src/CodeAnalysis/SyntaxNode.ts:28-30 | the text of the first children has one line per node in their subtrees |
| SyntaxPrint.OneLine | src/CodeAnalysis/SyntaxNode.ts:29 | a child's own line holds exactly one line break, at its end |

## Left out

- Kind, keyword and precedence tables (`Facts`, `SyntaxFacts`): their files are not part of this model; the lexers, the parser and the rewriter take them as parameters, requiring only that the empty string read past the end is end of file, and that end of file is no operator.
- Number conversion and arithmetic: JavaScript numbers are modelled as reals, `parseFloat` is the parameter `parseNumber`, and division and exponentiation are the evaluator's parameters `divide` and `power`; floating-point rounding, `NaN` and infinities are not modelled.
- Console output: the `Printf` call of src/Lexer.ts:73 and the line `SetValueForCell` logs are left out, since they only print.
- src/Lexer.ts: the `id` counter the `@InjectId` decorator sets on tokens and the `tokenStates` map are left out; the decorator's file is not part of this model.
- src/Lexer.ts `peekToken` and `hasMoreTokens` (lines 80-83, 110-112): they rely on the `@PreserveState` decorator, whose file is not part of this model; lookahead is modelled in the root lexer, whose `peekToken` saves and restores `position` itself.
- JavaScript `Map` and `Set` are modelled as insertion-ordered sequences without duplicate keys (src/Cell.ts, BoundScope.ts); object identity is modelled by names where the source keys its maps by name.
- src/Cell.ts: the fields `Kind`, `Declared`, `Value`, `Expression` and `Formula` are not modelled; none of the modelled methods reads or writes them.
- Generators (`GetChildren`, `getTokens`, `DetectAndNotifyForChange`) are modelled as the whole sequence they yield; a consumer that stops iterating early is not modelled.
- src/lexing/span.ts and line.span.ts: the source text's line and column lookup and its token index are not part of this model; they are given functions and a given index.
- src/Binder.ts: the environment API it calls is not part of this model; `ReferToCell` is taken to push the name onto the stack `GetStack` returns, and `RegisterNode` to record the node and return it.
- BoundScope.ts: only the root scope is modelled as a class; the parent chain appears only in `ResolveAsWritten` and `Resolve` (see Findings).
- CellScope.BoundScope.DetectCircularDependencies: the depth of recursion the JavaScript engine allows is the parameter `stackDepth`; beyond it the model returns `CallStackExceeded` where the source would overflow the stack.
- Rewriter: the source assigns node fields in place; the model works on values and follows those updates through `Updated`, the state of a node's own fields after its rewrite (lines 36, 45-46, 55-65 and the rewrites of the right operand's children at lines 71-72), which is what `RewriteUnary` rewrites again at line 45. Not followed: a node shared between two places of the input tree, and updates that reach a node only through a node the rewriter creates (lines 71-73) or through the result of the collapse at line 43.
- Rewriter: the rewriter's diagnostic bag is left out; its two errors are returned as `Failure(MissingMethod(kind))` and `Failure(MissingSwitchMethod(kind))`.
- Diagnostics.MessageDeterminesArgument: stated only for the eleven one-argument reporters; for `TokenNotAMatch` the two kinds cannot always be read back, because a kind name may itself contain the text between them.
- Character classes: `\s` is modelled as the fixed set of characters JavaScript's `\s` matches; there is no Unicode normalisation.
- Integer widths: positions, line and column numbers are unbounded naturals; JavaScript's 2^53 limit is not modelled.
- BlockBinder.Binder: `new BoundCellAssignment(this.scope, ...)` (src/analysis/binder/binder.ts:81, :103) is given the scope whose `assignments` the binder reads at lines 88 and 97, but the file defining that constructor is not part of this model, so nothing visible writes `assignments`. The model assumes the constructor does not add the assignment to its scope: every scope starts and stays without assignments, so a name is always bound to a new cell of value 0 (reported as undeclared under explicit declarations), even after an assignment to it such as `a = 1; b = a`. The `name in assignments` branches of `BindCell`, `BindCellReference` and `BindsTo` are stated but not reached from a binder the constructor builds.
- Environment: src/Environment.ts:11, :24 read `Node.Reference.Reference` and :27 reads `ReferencedBy` of a stored node, but the imported `ReferenceExpression` (src/CodeAnalysis/SyntaxNode.ts:67-71) has `Reference: SyntaxNode` and no `ReferencedBy` field. The model takes the declaration's name as a string and keeps a `referencedBy` list on `Environment.Declaration`, the reading the code evidently intends.
- BindUnaryExpression (AnalysisBinder.Binder.BindUnaryExpression): which references are queued and what is reported is stated only for an operand without a nested assignment or compilation unit. The syntax types do not rule those out, and a nested assignment drains and clears the queue and declares its own target. For such an operand the contract keeps the bound tree, the store's growth, the declarations kept and the diagnostics extended.
- BindBinaryExpression (AnalysisBinder.Binder.BindBinaryExpression): the left-before-right order of queued references and diagnostics is stated only for operands without a nested assignment or compilation unit, for the same reason as above.
- BindCellAssignment (AnalysisBinder.Binder.BindCellAssignment): with a nested assignment in the right-hand side, the target's exact dependencies, the exact declarations and the exact diagnostics are not stated. The target's identity, its stored expression, its declaration and the empty queue are stated for every right-hand side.
- AssignCell (AnalysisBinder.Binder.AssignCell): the same gap as `BindCellAssignment`, on the cell-target branch.
- BindTargetAndExpression (AnalysisBinder.Binder.BindTargetAndExpression): that exactly the right-hand side's references are queued and that the declarations are unchanged is stated only for a right-hand side without a nested assignment or compilation unit.
- Circular (AnalysisBinder.Circular): the runtime cell that defines `doesReference` (src/analysis/binder.ts:108) is not part of this model. The model reads it as direct membership of the target among the referenced cell's dependencies, so a cycle through an intermediate cell is not reported by the binder model, where a transitive `doesReference` would report it.
- Text positions and UTF-16: strings are sequences of Unicode scalar values, but JavaScript's `charAt`, `substring`, `length` and every span position count UTF-16 code units. A character outside the Basic Multilingual Plane is two code units in the source, which yields two bad tokens and shifts later spans, and one character in the models of the five lexers (LexingLexer, ParserLexer, AnalysisLexer, SrcLexer, RootLexer) and of LexingSpan.

## Findings

| source | as written | input that shows it | evidently intended | confidence | as-written member | corrected member |
|---|---|---|---|---|---|---|
| src/CodeAnalysis/Binder/BoundScope.ts:45-46 | when this scope lacks the name but has a parent, `ResolveScopeForCell` calls itself on `this` again, not on `Parent` | a name declared only in the parent scope: the lookup recurses on the child until the call stack is exhausted | look the name up in `Parent` | not executed | CellScope.ResolveAsWrittenNeverReachesParent | CellScope.Resolve |
