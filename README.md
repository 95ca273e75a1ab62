# Nexus compiler and language server, modelled in Dafny

Nexus is a small C-like language with three generations of compiler front end and a language server.
This project models each piece as values and pure functions where the C++ or JavaScript computes, and as classes with loops where the source changes state step by step.

- **Token vocabulary.** These are the `TokenKind` enumerations and static token tables of the V1 compiler, the NexusCompiler tokenizer and the V2 dictionary. The model covers enumerator values, names, spellings, precedences and the keyword lookup.
- **Lexers.**
  - The V1 `Lexer` is a class with a cursor, line and column.
  - The NexusCompiler tokenizer is a class too, `LexerShort.Lexer`, proved to agree with a grammar of functions over the source text.
  - The V2 `Lexer` is also a class.
  - The NexusCompiler comment stripper `uncommentedCode` is modelled too.
- **Parsers.**
  - The V2 parser produces functions of statements.
  - The NexusCompiler recursive-descent parser recovers from errors and keeps a list of errors.
  - The V1 parser of classes, sum types, methods, statements and expressions builds the V1 tree.
  - Each parser is a grammar of functions over a token sequence, plus a class whose methods move a cursor and are proved to agree with the grammar.
- **V1 literal decoding.** `LiteralExpr` turns a literal token into its value; this includes `std::stoll` with its failure cases.
- **JSON escaping.** This is the V2 AST's `json_utils::escape`, proved injective by a reader that inverts it.
- **Code generation.** The NexusCompiler `CodeGenerator` lowers the tree to LLVM IR. The IR is abstract: functions, blocks, instructions and values. The model covers:
  - type spellings;
  - the printf format pipeline: string interpolation, hex colours to ANSI escapes, and format specifiers;
  - the symbol table;
  - terminators;
  - forward declarations.
- **Language server.** `LSP/server.js` provides:
  - semantic-token highlighting, with its relative encoding proved to decode back;
  - the unmatched-brace diagnostic.

## Model

| member | source | states |
|---|---|---|
| TokenKinds.Ord | NexusCompilerV1/src/Tokenizing/Token.h:10-76 | every enumerator's value is below `NUM_TOKENS` (49) |
| TokenKinds.FromOrdOrd | NexusCompilerV1/src/Tokenizing/Token.h:10-76 | the 49 enumerators have 49 distinct values: going to the value and back gives the same kind |
| TokenKinds.OrdFromOrd | NexusCompilerV1/src/Tokenizing/Token.h:10-76 | every value below `NUM_TOKENS` is the value of an enumerator |
| TokenKinds.OrdInjective | NexusCompilerV1/src/Tokenizing/Token.h:10-76 | two kinds with the same value are the same kind |
| TokenKinds.NameOrUnnamed | NexusCompilerV1/src/Tokenizing/Token.h:122-125 | `getName` is the row's name, or `"<unnamed_token>"` when the row has none |
| TokenKinds.PositionSuffixInjective | NexusCompilerV1/src/Tokenizing/Token.h:139-142 | the `line:column` suffix of `toString` determines both numbers |
| TokenKinds.GetKindFromSpelling | NexusCompilerV1/src/Tokenizing/TokenTable.cpp:73-95 | a spelling that is found names a keyword kind, `type_i32` or `type_f64` |
| TokenTableV1.GetInfo | NexusCompilerV1/src/Tokenizing/TokenTable.cpp:69-71 | the row at the kind's value; every row is left-associative |
| TokenTableV1.NamesAreEnumNames | NexusCompilerV1/src/Tokenizing/TokenTable.cpp:4-67 | every row is named after its own enumerator, so the initialisers are in enum order |
| TokenTableV1.FlagsFollowSections | NexusCompilerV1/src/Tokenizing/TokenTable.cpp:4-67 | the keyword, operator, delimiter and literal flags are set exactly on the enum's keyword and type, operator, delimiter and literal sections |
| TokenTableV1.PrecedenceIsBindingPower | NexusCompilerV1/src/Tokenizing/TokenTable.cpp:33-50 | assignments bind at 10, `+ -` at 7, `* / // %` at 8, `.` at 16, comparisons at 6; nothing but an operator has a precedence |
| TokenTableV1.SpellingMissingExactly | NexusCompilerV1/src/Tokenizing/TokenTable.cpp:4-67 | a row has no spelling exactly for `type_name`, identifiers, the four literals, comments and white space |
| TokenTableV1.LookupIsSpelledInTable | NexusCompilerV1/src/Tokenizing/TokenTable.cpp:73-95 | a kind found by `getKindFromSpelling(s)` is a keyword row whose spelling is `s` |
| TokenTableV1.TableKeywordsAreLookedUp | NexusCompilerV1/src/Tokenizing/TokenTable.cpp:73-95 | every spelled keyword row is found by `getKindFromSpelling` under its spelling |
| TokenTableV1.KeywordLookupMatchesTable | NexusCompilerV1/src/Tokenizing/TokenTable.cpp:73-95 | `getKindFromSpelling(s) == k` exactly when `k`'s row is a keyword spelled `s` |
| TokenV1.GetName | NexusCompilerV1/src/Tokenizing/Token.h:122-125 | every kind's name is its enumerator's identifier, never the `<unnamed_token>` fallback |
| TokenV1.GetNameSafe | NexusCompilerV1/src/Tokenizing/Token.h:127-133 | with every row named, `getNameSafe` equals `getName` |
| TokenV1.IsKeyword | NexusCompilerV1/src/Tokenizing/Token.h:135 | true exactly for the keyword and type kinds |
| TokenV1.IsOperator | NexusCompilerV1/src/Tokenizing/Token.h:136 | true exactly for the operator kinds |
| TokenV1.GetPrecedence | NexusCompilerV1/src/Tokenizing/Token.h:137 | the family's binding power; only an operator has one |
| TokenV1.ToString | NexusCompilerV1/src/Tokenizing/Token.h:139-142 | the enumerator's identifier, the quoted lexeme and `line:column` |
| TokenV1.ToStringDeterminesPosition | NexusCompilerV1/src/Tokenizing/Token.h:139-142 | two tokens of one kind and text that print alike are the same token |
| TokKinds.GetKindFromSpelling | NexusCompilerV2/src/Dictionary/TokenTable.cpp:15-26 | a spelling that is found maps to the identifier or the return kind |
| TokKinds.LookupExactly | NexusCompiler/src/Dictionary/TokenTable.cpp:15-26 | exactly `i32` (to the identifier kind) and `return` are found; every other text gives nothing |
| TokenShort.UnnamedTokens | NexusCompiler/src/Tokenizing/Token.h:119-128 | `getName` is the placeholder exactly for the five kinds past the written rows, and `getNameSafe` then prints the kind's value |
| TokenShort.MissingNamesDistinct | NexusCompiler/src/Tokenizing/Token.h:124-128 | two unnamed kinds with the same safe name are the same kind |
| TokenTableShort.GetInfo | NexusCompiler/src/Tokenizing/TokenTable.cpp:64-66 | a kind whose value is past the 44 initialisers reads a zero-filled row |
| TokenTableShort.AgreesBelowOpNeq | NexusCompiler/src/Tokenizing/TokenTable.cpp:5-45 | up to `op_eq` every row is the one the complete table holds |
| TokenTableShort.ShiftedFromOpNeq | NexusCompiler/src/Tokenizing/TokenTable.cpp:45-61 | from `op_neq` on, each slot holds the complete table's row for the kind five places later |
| TokenTableShort.ShiftExamples | NexusCompiler/src/Tokenizing/TokenTable.cpp:45-49 | `op_neq` reads the row named `delim_lbrace`, and `delim_lbrace` the row named `delim_comma` |
| TokenTableShort.ZeroedExactly | NexusCompiler/src/Tokenizing/TokenTable.cpp:5-62 | exactly `delim_arrow`, `comment`, `whitespace`, `eof` and `unknown` read a zeroed, unnamed row |
| TokenTableShort.KeywordLookupMatchesTable | NexusCompiler/src/Tokenizing/TokenTable.cpp:68-90 | the keyword lookup finds `k` for `s` exactly when `k`'s row is a keyword spelled `s` |
| DictTable.Ord | NexusCompiler/src/Dictionary/TokenTable.cpp:29-45 | the fifteen kinds of this dictionary take the values below 15 |
| DictTable.RowNames | NexusCompiler/src/Dictionary/TokenTable.cpp:29-45 | every row is named after its kind except the right brace's, which repeats `TOK_LBRACE` but keeps the spelling `}` |
| DictTable.SpellingMissingExactly | NexusCompiler/src/Dictionary/TokenTable.cpp:29-45 | a row lacks a spelling exactly for identifiers, integers and strings |
| DictTable.LookupAgainstTable | NexusCompiler/src/Dictionary/TokenTable.cpp:15-45 | `return` is found under its row's spelling; `i32` maps to the identifier kind, whose row has no spelling |
| DictTable.ToString | NexusCompiler/src/Dictionary/TokenTable.cpp:47-84 | every label is non-empty |
| DictTable.Surrounded | NexusCompiler/src/Dictionary/TokenTable.cpp:47-84 | a label made of layout, a name and more layout shows the name between layout characters |
| DictTable.ToStringIsKindName | NexusCompiler/src/Dictionary/TokenTable.cpp:47-84 | every label is the kind's own name with only spaces and newlines around it, and ends in one of them |
| DictTable.RBraceLabelDiffersFromRow | NexusCompiler/src/Dictionary/TokenTable.cpp:69-70 | the right brace prints as `TOK_RBRACE` and a newline, unlike its table row |
| DictTableV2.Ord | NexusCompilerV2/src/Dictionary/TokenType.h:41-67 | V2's fifteen kinds take the values below 15 |
| DictTableV2.RowNames | NexusCompilerV2/src/Dictionary/TokenTable.cpp:29-38 | every row is named after its kind except the right brace's, which is `("TOK_LBRACE", "}")` |
| DictTableV2.SpellingMissingExactly | NexusCompilerV2/src/Dictionary/TokenTable.cpp:29-38 | a row lacks a spelling exactly for identifiers, integers, strings and comments |
| DictTableV2.LookupAgainstTable | NexusCompilerV2/src/Dictionary/TokenTable.cpp:15-38 | the lookup does not invert the table: `i32` maps to the identifier kind, which has no spelling; `return` does round-trip |
| Scanning.Peek | NexusCompilerV1/src/Tokenizing/Lexer.cpp:7-11 | the character at the position, or `'\0'` past the end |
| Scanning.LineCol | NexusCompilerV1/src/Tokenizing/Lexer.cpp:13-24 | after any prefix the line and column are both at least 1 |
| Scanning.LineStart | NexusCompilerV1/src/Tokenizing/Lexer.cpp:13-24 | the start of the current line follows the last newline before the position and no newline lies after it |
| Scanning.LineColCounts | NexusCompilerV1/src/Tokenizing/Lexer.cpp:13-24 | the line is one more than the newlines consumed; the column is one more than the characters consumed since the last of them |
| Scanning.SkipSpaces | NexusCompilerV1/src/Tokenizing/Lexer.cpp:26-30 | `skipWhitespace` stops at the first non-space character, having passed only spaces |
| Scanning.WordEnd | NexusCompilerV1/src/Tokenizing/Lexer.cpp:88-93 | the identifier loop stops at the first character outside `[A-Za-z0-9_]`, having passed only word characters |
| Scanning.DigitsEnd | NexusCompilerV2/src/Lexer/Lexer.cpp:131-135 | the digit loop stops at the first non-digit, having passed only digits |
| Scanning.Until | NexusCompilerV1/src/Tokenizing/Lexer.cpp:133-135 | the string body ends at the first quote or `'\0'` and contains neither |
| Scanning.BlockCommentEnd | NexusCompilerV1/src/Tokenizing/Lexer.cpp:55-68 | a `/!` comment ends just after its first `!/`; with none, at the first `'\0'`; it contains no earlier closer |
| CommentStripper.LineEnd | NexusCompiler/src/FileReader/FileReader.cpp:37-39 | the line skip ends inside the text |
| CommentStripper.LineEndStops | NexusCompiler/src/FileReader/FileReader.cpp:37-39 | the line skip stops at the first newline, or at the end |
| CommentStripper.BlockEnd | NexusCompiler/src/FileReader/FileReader.cpp:41-46 | the block skip ends inside the text |
| CommentStripper.BlockEndStops | NexusCompiler/src/FileReader/FileReader.cpp:41-46 | the block skip stops just after the first `!/`; with none, one character short of the end |
| CommentStripper.SubsequenceOfSuffix | NexusCompiler/src/FileReader/FileReader.cpp:29-54 | a subsequence of a suffix is a subsequence of the whole |
| CommentStripper.SubsequenceLength | NexusCompiler/src/FileReader/FileReader.cpp:29-54 | a subsequence is never longer |
| CommentStripper.StripFromIsSubsequence | NexusCompiler/src/FileReader/FileReader.cpp:34-51 | what the loop adds from `i` on is a subsequence of the text from `i` |
| CommentStripper.StripIsSubsequence | NexusCompiler/src/FileReader/FileReader.cpp:29-54 | the result keeps characters of the input in order, adds none, and is never longer |
| CommentStripper.PlainCopied | NexusCompiler/src/FileReader/FileReader.cpp:47-50 | text in which no comment opens is copied unchanged and the loop resumes after it |
| CommentStripper.CommentFreeUnchanged | NexusCompiler/src/FileReader/FileReader.cpp:29-54 | text without a comment opener comes out unchanged |
| CommentStripper.LineCommentDropped | NexusCompiler/src/FileReader/FileReader.cpp:35-39 | a slash-star comment is removed up to its newline, which is kept |
| CommentStripper.BlockCommentDropped | NexusCompiler/src/FileReader/FileReader.cpp:40-46 | a `/!…!/` comment is removed together with both delimiters |
| CommentStripper.UnterminatedKeepsLastChar | NexusCompiler/src/FileReader/FileReader.cpp:40-46 | an unterminated `/!` comment drops everything except the last character of the text |
| CommentStripper.ShortTextKept | NexusCompiler/src/FileReader/FileReader.cpp:35-40 | an opener with nothing after it is kept: a text of at most two characters comes out unchanged |
| CommentStripper.SkipLine | NexusCompiler/src/FileReader/FileReader.cpp:36-39 | the inner loop ends where the line skip ends |
| CommentStripper.SkipBlock | NexusCompiler/src/FileReader/FileReader.cpp:41-46 | the inner loop and the step over the closer end where the block skip ends |
| CommentStripper.UncommentedCode | NexusCompiler/src/FileReader/FileReader.cpp:29-54 | the loop's result is the stripped text, so it has every property proved about `Strip` |
| LexerV1.NumberEnd | NexusCompilerV1/src/Tokenizing/Lexer.cpp:109-121 | the number loop stops before a non-digit that is not an admissible '.', and once a '.' was taken it stays taken |
| LexerV1.NumberLexemeChars | NexusCompilerV1/src/Tokenizing/Lexer.cpp:105-123 | a number lexeme holds only digits and '.'s that each precede a digit |
| LexerV1.NumberLexemeDots | NexusCompilerV1/src/Tokenizing/Lexer.cpp:105-124 | a number takes at most one '.', none after one was taken, and is a float exactly when its lexeme holds one |
| LexerV1.Punct | NexusCompilerV1/src/Tokenizing/Lexer.cpp:147-304 | the operator and delimiter branches take one or two characters, starting with the current one |
| LexerV1.ScanOne | NexusCompilerV1/src/Tokenizing/Lexer.cpp:48-304 | every pass of the loop body consumes at least one character and stays within the text |
| LexerV1.LexFromEndsWithEof | NexusCompilerV1/src/Tokenizing/Lexer.cpp:40-309 | from any position the token list ends with exactly one `eof` token, placed at the end of the text, and no other token is `eof` |
| LexerV1.LexEndsWithEof | NexusCompilerV1/src/Tokenizing/Lexer.cpp:40-309 | `tokenize` ends with exactly one `eof` token, at the end of the text |
| LexerV1.LexFromEnd | NexusCompilerV1/src/Tokenizing/Lexer.cpp:43-46 | once only white space is left, the list is the `eof` token |
| LexerV1.ScanNeverEof | NexusCompilerV1/src/Tokenizing/Lexer.cpp:48-304 | no branch of the loop body yields `eof` |
| LexerV1.BlankTextIsEof | NexusCompilerV1/src/Tokenizing/Lexer.cpp:40-309 | text of only white space lexes to the lone `eof` token |
| LexerV1.WordToken | NexusCompilerV1/src/Tokenizing/Lexer.cpp:88-102 | an identifier is a maximal `[A-Za-z0-9_]` run; it takes the keyword kind when its spelling is listed, else `identifier` |
| LexerV1.NumberToken | NexusCompilerV1/src/Tokenizing/Lexer.cpp:105-127 | a number is `lit_float` exactly when it holds a '.', which is followed by a digit |
| LexerV1.StringToken | NexusCompilerV1/src/Tokenizing/Lexer.cpp:130-142 | a string lexeme is the raw text between the quotes; an unterminated string runs to the end of the text or to a `'\0'` |
| LexerV1.MaximalMunch | NexusCompilerV1/src/Tokenizing/Lexer.cpp:218-299 | a two-character operator is always one token, never its one-character prefix |
| LexerV1.UnknownCharacter | NexusCompilerV1/src/Tokenizing/Lexer.cpp:218-304 | a lone `&` or `!`, and any character no branch recognises, is one `unknown` token carrying that character |
| LexerV1.CommentsYieldNoToken | NexusCompilerV1/src/Tokenizing/Lexer.cpp:52-77 | `/!` and slash-star comments yield no token; the first ends after its closer, the second before the next newline |
| LexerV1.Lexer.constructor | NexusCompilerV1/src/Tokenizing/Lexer.cpp:5 | a lexer starts at position 0, on line 1, column 1 |
| LexerV1.Lexer.Advance | NexusCompilerV1/src/Tokenizing/Lexer.cpp:13-24 | consumes one character (none at the end); a newline starts the next line at column 1, anything else moves one column right |
| LexerV1.Lexer.MakeToken | NexusCompilerV1/src/Tokenizing/Lexer.cpp:32-38 | the token carries the cursor's line and column, those after its lexeme |
| LexerV1.Lexer.SkipWhitespace | NexusCompilerV1/src/Tokenizing/Lexer.cpp:26-30 | the cursor ends where `SkipSpaces` says, with line and column kept in step |
| LexerV1.Lexer.SkipBlockComment | NexusCompilerV1/src/Tokenizing/Lexer.cpp:60-67 | the cursor ends after the first `!/`, or at the first `'\0'` |
| LexerV1.Lexer.SkipUntil | NexusCompilerV1/src/Tokenizing/Lexer.cpp:74-76 | the cursor ends at the first `stop` character or `'\0'` |
| LexerV1.Lexer.SkipWord | NexusCompilerV1/src/Tokenizing/Lexer.cpp:90-92 | the cursor ends after the maximal word run |
| LexerV1.Lexer.SkipNumber | NexusCompilerV1/src/Tokenizing/Lexer.cpp:106-121 | the cursor and the '.' flag end as `NumberEnd` says |
| LexerV1.Lexer.ScanPunct | NexusCompilerV1/src/Tokenizing/Lexer.cpp:147-304 | the branch taken consumes the operator `Punct` chooses and emits its token |
| LexerV1.Lexer.ScanWord | NexusCompilerV1/src/Tokenizing/Lexer.cpp:88-102 | consumes the word and emits its keyword kind or `identifier` |
| LexerV1.Lexer.ScanNumber | NexusCompilerV1/src/Tokenizing/Lexer.cpp:105-127 | consumes the number and emits `lit_float` or `lit_integer` as it holds a '.' |
| LexerV1.Lexer.ScanString | NexusCompilerV1/src/Tokenizing/Lexer.cpp:130-142 | consumes the string with its closing quote, if any, and emits its body |
| LexerV1.Lexer.ScanToken | NexusCompilerV1/src/Tokenizing/Lexer.cpp:48-304 | one pass of the loop body does what `ScanOne` says |
| LexerV1.Lexer.Tokenize | NexusCompilerV1/src/Tokenizing/Lexer.cpp:40-309 | returns `LexFrom` of the start position, and consumes the whole text |
| LexerShort.NumberEnd | NexusCompiler/src/Tokenizing/Lexer.cpp:90-102 | the number loop stops before a non-digit that is not the first '.', whatever follows that '.' |
| LexerShort.NumberLexeme | NexusCompiler/src/Tokenizing/Lexer.cpp:86-105 | a number lexeme is digits with at most one '.', and is a float exactly when it holds one |
| LexerShort.Punct | NexusCompiler/src/Tokenizing/Lexer.cpp:124-184 | the `switch` takes one or two characters, starting with the current one |
| LexerShort.MarkOffset | NexusCompiler/src/Tokenizing/Lexer.cpp:124-184 | a token is built at most one character after its start |
| LexerShort.ScanOne | NexusCompiler/src/Tokenizing/Lexer.cpp:40-184 | every pass of the loop body consumes at least one character; the token is built no later than the pass ends |
| LexerShort.LexFromEnd | NexusCompiler/src/Tokenizing/Lexer.cpp:36-38 | once only white space is left, the list is the `eof` token |
| LexerShort.ScanNeverEof | NexusCompiler/src/Tokenizing/Lexer.cpp:40-184 | no pass of the loop body yields `eof` |
| LexerShort.LexFromEndsWithEof | NexusCompiler/src/Tokenizing/Lexer.cpp:33-189 | from any position the list ends with exactly one `eof` token, on the text's last line, and no other token is `eof` |
| LexerShort.LexEndsWithEof | NexusCompiler/src/Tokenizing/Lexer.cpp:33-189 | `tokenize` ends with exactly one `eof` token |
| LexerShort.NumberToken | NexusCompiler/src/Tokenizing/Lexer.cpp:86-108 | a number is `lit_float` exactly when it holds a '.', which need not be followed by a digit |
| LexerShort.TrailingDotIsFloat | NexusCompiler/src/Tokenizing/Lexer.cpp:96-105 | `1.` lexes as the float literal `1.` |
| LexerShort.LoneDotIsUnknown | NexusCompiler/src/Tokenizing/Lexer.cpp:179-183 | a '.' not followed by a digit is an `unknown` token |
| LexerShort.SlashIsDivision | NexusCompiler/src/Tokenizing/Lexer.cpp:168 | a '/' that opens no comment is always `op_div`: there is no `//` token |
| LexerShort.TwoCharTokensExactly | NexusCompiler/src/Tokenizing/Lexer.cpp:124-184 | the switch yields a two-character token exactly for `&= => <- ->` |
| LexerShort.DoubleEqualsIsTwoAssigns | NexusCompiler/src/Tokenizing/Lexer.cpp:135-143 | `==` lexes as two `op_assign` tokens |
| LexerShort.UnlistedCharacterIsUnknown | NexusCompiler/src/Tokenizing/Lexer.cpp:179-183 | `>`, `!` and every other unlisted character become one `unknown` token carrying that character |
| LexerShort.WordToken | NexusCompiler/src/Tokenizing/Lexer.cpp:70-84 | an identifier is a maximal `[A-Za-z0-9_]` run, classified by the keyword lookup |
| LexerShort.StringToken | NexusCompiler/src/Tokenizing/Lexer.cpp:110-122 | a string lexeme is the raw text between the quotes; at the end of the text or a `'\0'` it closes silently |
| LexerShort.Lexer.constructor | NexusCompiler/src/Tokenizing/Lexer.cpp:5 | a lexer starts at position 0, on line 1, column 1 |
| LexerShort.Lexer.Advance | NexusCompiler/src/Tokenizing/Lexer.cpp:15-21 | consumes one character (none at the end); a newline starts the next line at column 1, anything else moves one column right |
| LexerShort.Lexer.MakeToken | NexusCompiler/src/Tokenizing/Lexer.cpp:29-31 | the token's column is the cursor's column minus the lexeme's length, wrapped to 64 bits; when the compiler moves the lexeme out before reading its size, it is the cursor's column |
| LexerShort.Lexer.SkipWhitespace | NexusCompiler/src/Tokenizing/Lexer.cpp:23-27 | the cursor ends where `SkipSpaces` says |
| LexerShort.Lexer.SkipBlockComment | NexusCompiler/src/Tokenizing/Lexer.cpp:49-56 | the cursor ends after the first `!/`, or at the first `'\0'` |
| LexerShort.Lexer.SkipUntil | NexusCompiler/src/Tokenizing/Lexer.cpp:63-65 | the cursor ends at the first `stop` character or `'\0'` |
| LexerShort.Lexer.SkipWord | NexusCompiler/src/Tokenizing/Lexer.cpp:72-74 | the cursor ends after the maximal word run |
| LexerShort.Lexer.SkipNumber | NexusCompiler/src/Tokenizing/Lexer.cpp:87-102 | the cursor and the '.' flag end as `NumberEnd` says |
| LexerShort.Lexer.ScanPunct | NexusCompiler/src/Tokenizing/Lexer.cpp:124-184 | the two-character cases build their token between the two advances, the others before advancing |
| LexerShort.Lexer.ScanWord | NexusCompiler/src/Tokenizing/Lexer.cpp:70-84 | consumes the word and emits its keyword kind or `identifier` |
| LexerShort.Lexer.ScanNumber | NexusCompiler/src/Tokenizing/Lexer.cpp:86-108 | consumes the number and emits `lit_float` or `lit_integer` |
| LexerShort.Lexer.ScanString | NexusCompiler/src/Tokenizing/Lexer.cpp:110-122 | consumes the string with its closing quote, if any, and emits its body |
| LexerShort.Lexer.ScanToken | NexusCompiler/src/Tokenizing/Lexer.cpp:40-184 | one pass of the loop body does what `ScanOne` says |
| LexerShort.Lexer.Tokenize | NexusCompiler/src/Tokenizing/Lexer.cpp:33-189 | returns `LexFrom` of the start position, and consumes the whole text |
| LexerV2.QuoteEnd | NexusCompilerV2/src/Lexer/Lexer.cpp:119-121 | the string loop stops at the first '"' or the end; an embedded `'\0'` does not stop it |
| LexerV2.PlusAsWritten | NexusCompilerV2/src/Lexer/Lexer.cpp:94-103 | the `+` branch consumes at least the `+` and stays within the text |
| LexerV2.PlusIntended | NexusCompilerV2/src/Lexer/Lexer.cpp:94-103 | the corrected `+` branch consumes at least the `+` and stays within the text |
| LexerV2.ScanOne | NexusCompilerV2/src/Lexer/Lexer.cpp:61-154 | a pass of the loop body consumes a character unless it starts at the end of the text |
| LexerV2.WordsAreIdentifiers | NexusCompilerV2/src/Lexer/Lexer.cpp:106-114 | every word, keywords included, is one `TOK_IDENTIFIER` spanning a maximal `[A-Za-z0-9_]` run |
| LexerV2.ReturnIsIdentifier | NexusCompilerV2/src/Lexer/Lexer.cpp:106-114 | `return` and `i32` lex as identifiers |
| LexerV2.DigitRunIsInt | NexusCompilerV2/src/Lexer/Lexer.cpp:131-142 | a number is a maximal digit run and always `TOK_INT` |
| LexerV2.SymbolsAndUnknown | NexusCompilerV2/src/Lexer/Lexer.cpp:64-93 | each of `( ) { } = ;` is its own one-character token; any unrecognised character gives `<UNKNOWN>` |
| LexerV2.StringToken | NexusCompilerV2/src/Lexer/Lexer.cpp:116-128 | a string is the raw text between the quotes; unterminated, it runs to the end of the text |
| LexerV2.NulIsEof | NexusCompilerV2/src/Lexer/Lexer.cpp:145-149 | a `'\0'` under the cursor, embedded or past the end, yields `TOK_EOF` |
| LexerV2.EmptyInputNoTokens | NexusCompilerV2/src/Lexer/Lexer.cpp:57-60 | the empty text yields no token |
| LexerV2.NoEofWithoutNul | NexusCompilerV2/src/Lexer/Lexer.cpp:57-160 | text without `'\0'` that ends in a non-space character yields no `TOK_EOF` from any position |
| LexerV2.NoEofAfterNonSpace | NexusCompilerV2/src/Lexer/Lexer.cpp:57-160 | such a text's token list holds no `TOK_EOF` |
| LexerV2.PlusPairDropped | NexusCompilerV2/src/Lexer/Lexer.cpp:94-103 | as written, a `+` is dropped unless a `+` stands two places after it; `++` before a non-`+` yields nothing |
| LexerV2.IncrementLost | NexusCompilerV2/src/Lexer/Lexer.cpp:94-103 | as written, `x++;` lexes to the identifier and the semicolon only |
| LexerV2.IncrementIntended | NexusCompilerV2/src/Lexer/Lexer.cpp:94-99 | with the test on the character right after the `+`, `++` is always one `TOK_INCREMENT` |
| LexerV2.LonePlusDropped | NexusCompilerV2/src/Lexer/Lexer.cpp:100-102 | with the corrected test, a single `+` still yields nothing, as the unimplemented binary `+` leaves it |
| LexerV2.Lexer.constructor | NexusCompilerV2/src/Lexer/Lexer.cpp:9 | a lexer starts at position 0, on line 1, column 1 |
| LexerV2.Lexer.Next | NexusCompilerV2/src/Lexer/Lexer.cpp:20-33 | consumes one character, or returns `'\0'` at the end and stays; a newline moves to column 1 of the next line |
| LexerV2.Lexer.MakeToken | NexusCompilerV2/src/Lexer/Lexer.cpp:51-54 | the token carries the cursor's line and column |
| LexerV2.Lexer.SkipWhitespace | NexusCompilerV2/src/Lexer/Lexer.cpp:35-39 | the cursor ends where `SkipSpaces` says |
| LexerV2.Lexer.ScanWord | NexusCompilerV2/src/Lexer/Lexer.cpp:106-114 | accumulates the maximal word and emits it as an identifier |
| LexerV2.Lexer.ScanString | NexusCompilerV2/src/Lexer/Lexer.cpp:116-128 | accumulates the body up to the quote and steps over it |
| LexerV2.Lexer.ScanDigits | NexusCompilerV2/src/Lexer/Lexer.cpp:131-142 | the do-while accumulates the maximal digit run |
| LexerV2.Lexer.ScanToken | NexusCompilerV2/src/Lexer/Lexer.cpp:61-154 | one pass of the loop body does what `ScanOne` says for the code as written |
| LexerV2.Lexer.Tokenize | NexusCompilerV2/src/Lexer/Lexer.cpp:57-160 | returns `LexFrom` of the start position, as written, and consumes the whole text |
| ParseCursor.PrependNothing | NexusCompilerV2/src/Parser/Parser.cpp:116-129 | a loop that has collected nothing gives what the rest of the loop gives |
| ParseCursor.PrependTwice | NexusCompilerV2/src/Parser/Parser.cpp:116-129 | collecting in two rounds is collecting the two lists in order |
| ParseCursor.PeekAt | NexusCompilerV2/src/Parser/Parser.cpp:15-22 | the token under the cursor, or the synthetic `TOK_EOF` token past the end |
| ParseCursor.Consume | NexusCompilerV2/src/Parser/Parser.cpp:24-31 | returns the token `peek` shows and moves one place, except past the end |
| ParseCursor.MatchAt | NexusCompilerV2/src/Parser/Parser.cpp:33-39 | the cursor moves exactly when the token under it has the kind asked for |
| ParseCursor.ExpectAt | NexusCompilerV2/src/Parser/Parser.cpp:45-58 | succeeds exactly on the expected kind, consuming it; otherwise an error at the token's line and column with the given message, or the generated one when it is empty |
| ParseCursor.SyncLoop | NexusCompilerV2/src/Parser/Parser.cpp:73-86 | the skip loop never moves backwards nor past the end |
| ParseCursor.SyncFrom | NexusCompilerV2/src/Parser/Parser.cpp:70-87 | `synchronize` always moves forward when tokens are left |
| ParseCursor.SyncLoopStops | NexusCompilerV2/src/Parser/Parser.cpp:73-86 | the skip stops at the end or a `TOK_EOF`, just past the first `;`, or on a `return` or `{`, having passed none of them |
| ParseCursor.RecoveryAdvances | NexusCompilerV2/src/Parser/Parser.cpp:96-103 | a failed declaration that started at `i` resumes strictly after `i` |
| ParseCursor.ParamsAt | NexusCompilerV2/src/Parser/Parser.cpp:120-129 | a parameter list that parses is non-empty, moves forward and holds only identifier tokens |
| ParseCursor.HeaderAt | NexusCompilerV2/src/Parser/Parser.cpp:108-132 | a header that parses starts with its identifier name and moves forward; a failure is reported within the tokens |
| ParseCursor.ParamTokens | NexusCompilerV2/src/Parser/Parser.cpp:120-129 | `n` parameters take `3n - 1` tokens |
| ParseCursor.ParamsRoundTrip | NexusCompilerV2/src/Parser/Parser.cpp:120-129 | parsing a written-out parameter list gives back the parameters and stops after them |
| ParseCursor.HeaderRoundTrip | NexusCompilerV2/src/Parser/Parser.cpp:108-132 | parsing a written-out header `name ( params )` gives back the name and the parameters, and stops after the `)` |
| TokenCursor.Cursor.constructor | NexusCompilerV2/src/Parser/Parser.h:63-71 | a parser starts at index 0 of its token vector |
| TokenCursor.Cursor.Peek | NexusCompiler/src/Parser/Parser.cpp:16-23 | `peek()` is `PeekAt` of the current index |
| TokenCursor.Cursor.IsAtEnd | NexusCompiler/src/Parser/Parser.cpp:61-64 | `isAtEnd()` holds past the end or on a `TOK_EOF` |
| TokenCursor.Cursor.Check | NexusCompiler/src/Parser/Parser.cpp:42-44 | `check(kind)` is false at the end, even for `TOK_EOF`, and otherwise compares the kind |
| TokenCursor.Cursor.Consume | NexusCompiler/src/Parser/Parser.cpp:25-32 | returns and steps over the token as `Consume` says |
| TokenCursor.Cursor.Match | NexusCompiler/src/Parser/Parser.cpp:34-40 | returns whether the kind matched and moves exactly then |
| TokenCursor.Cursor.Expect | NexusCompiler/src/Parser/Parser.cpp:46-59 | consumes the expected token or yields the error `ExpectAt` describes |
| TokenCursor.Cursor.Synchronize | NexusCompiler/src/Parser/Parser.cpp:71-88 | the index ends where `SyncFrom` says |
| TokenCursor.ParseParameters | NexusCompilerV2/src/Parser/Parser.cpp:120-129 | the do-while loop gives what `ParamsAt` says |
| TokenCursor.ParseHeader | NexusCompilerV2/src/Parser/Parser.cpp:108-132 | the header part of `parseFunctionDecl` gives what `HeaderAt` says |
| ParserV2.FunctionDeclAt | NexusCompilerV2/src/Parser/Parser.cpp:108-140 | a declaration that parses starts at its name and has no body; at the end of the stream it fails with the function-name message |
| ParserV2.ParseFrom | NexusCompilerV2/src/Parser/Parser.cpp:93-106 | the loop, when it exits at all, has collected no function |
| ParserV2.Parse | NexusCompilerV2/src/Parser/Parser.cpp:93-106 | a program that `parse` returns has no functions |
| ParserV2.NotAtEndGivesEmpty | NexusCompilerV2/src/Parser/Parser.cpp:96 | a stream whose first token is not `TOK_EOF` gives the empty program at once |
| ParserV2.EmptyNeverExits | NexusCompilerV2/src/Parser/Parser.cpp:96-103 | the empty stream never leaves the loop |
| ParserV2.AllEofNeverExits | NexusCompilerV2/src/Parser/Parser.cpp:96-103 | a stream of only `TOK_EOF` tokens never leaves the loop |
| ParserV2.EofThenReturnExits | NexusCompilerV2/src/Parser/Parser.cpp:70-103 | `synchronize` steps over a `TOK_EOF` and stops before `return`, and the loop then exits with the empty program |
| ParserV2.FunctionDeclRoundTrip | NexusCompilerV2/src/Parser/Parser.cpp:108-140 | a written-out header is read back as a function with that name and parameters and no body |
| ParserV2.Parser.constructor | NexusCompilerV2/src/Parser/Parser.h:63-71 | the parser's cursor starts at index 0 of its tokens |
| ParserV2.Parser.ParseFunctionDecl | NexusCompilerV2/src/Parser/Parser.cpp:108-140 | gives what `FunctionDeclAt` says and leaves the cursor where it stops |
| ParserV2.Parser.Parse | NexusCompilerV2/src/Parser/Parser.cpp:93-106 | gives what `ParseFrom` says, `None` standing for a run that never returns |
| ParserV2.ParseFromIntended | NexusCompilerV2/src/Parser/Parser.cpp:93-106 | with the guard `!isAtEnd()`: the loop always exits, at the end gives no function, and every function it collects has no body |
| ParserV2.ParseIntended | NexusCompilerV2/src/Parser/Parser.cpp:93-106 | `parse` with the intended guard: a stream at its end gives the empty program |
| ParserV2.HeadersRoundTrip | NexusCompilerV2/src/Parser/Parser.cpp:93-140 | with the intended guard, written-out headers closed by the end of the stream read back as the same functions, in order |
| ParserV2.AsWrittenDropsHeaders | NexusCompilerV2/src/Parser/Parser.cpp:96 | as written, a non-empty run of headers closed by the end of the stream gives the empty program, where the intended loop gives every header |
| RecoveringParser.PrimaryAt | NexusCompiler/src/Parser/Parser.cpp:238-278 | accepts exactly at an int, string or identifier token, consuming one token unless a call follows; anything else is rejected with "Expected expression, got" and the token |
| RecoveringParser.ArgsAt | NexusCompiler/src/Parser/Parser.cpp:260-265 | a call's arguments are one or more well-formed expressions separated by commas |
| RecoveringParser.ExpressionAt | NexusCompiler/src/Parser/Parser.cpp:211-236 | an expression that parses is well formed and moves forward; with assignment as intended it is never an `AssignExpr` |
| RecoveringParser.ExpressionTail | NexusCompiler/src/Parser/Parser.cpp:214-235 | the postfix `++` and `=` tails accept only after an accepted primary and move forward |
| RecoveringParser.AssignmentAt | NexusCompiler/src/Parser/Parser.cpp:280-295 | `parseAssignment` gives a well-formed expression that is never an `Assignment` nor an `Increment` |
| RecoveringParser.AssignmentTail | NexusCompiler/src/Parser/Parser.cpp:283-294 | the `=` tail of `parseAssignment` accepts only after an accepted primary |
| RecoveringParser.ReturnAt | NexusCompiler/src/Parser/Parser.cpp:180-191 | a `return` statement that parses is a `Return` and moves forward |
| RecoveringParser.VarDeclAt | NexusCompiler/src/Parser/Parser.cpp:193-209 | a declaration that parses is `type name = e ;` with an initialiser, its type and name the first two tokens |
| RecoveringParser.StatementAt | NexusCompiler/src/Parser/Parser.cpp:163-178 | a statement that parses moves forward; an expression statement has an expression and ends at a `;` |
| RecoveringParser.StmtsFrom | NexusCompiler/src/Parser/Parser.cpp:147-156 | the statement loop stops at a `}` or at the end, never before where it started |
| RecoveringParser.StmtsRound | NexusCompiler/src/Parser/Parser.cpp:147-156 | a round of the statement loop keeps an accepted statement, or drops a failing one and resumes where `synchronize` stops |
| RecoveringParser.BlockAt | NexusCompiler/src/Parser/Parser.cpp:142-161 | a block that parses starts with `{` and ends with `}` |
| RecoveringParser.FunctionDeclAt | NexusCompiler/src/Parser/Parser.cpp:109-140 | a declaration that parses is a well-formed function with a body and moves forward |
| RecoveringParser.FunctionsFrom | NexusCompiler/src/Parser/Parser.cpp:97-104 | every function the top-level loop keeps is well formed |
| RecoveringParser.FunctionsRound | NexusCompiler/src/Parser/Parser.cpp:97-104 | a round of the top-level loop keeps an accepted declaration, or drops a failing one and resumes where `synchronize` stops |
| RecoveringParser.Parse | NexusCompiler/src/Parser/Parser.cpp:94-107 | `parse` never fails, and every function of its program is well formed |
| RecoveringParser.ReturnWithoutValue | NexusCompiler/src/Parser/Parser.cpp:183-185 | `return ;` is a `Return` with no value |
| RecoveringParser.TwoIdentifiersDeclare | NexusCompiler/src/Parser/Parser.cpp:168-173 | two leading identifiers commit to a declaration; without `=` third it is rejected with the `=` message at that token |
| RecoveringParser.IncrementFollowsIdentifier | NexusCompiler/src/Parser/Parser.cpp:214-221 | a parsed `++` always sits right after the identifier it increments |
| RecoveringParser.IncrementAfterLiteralRejected | NexusCompiler/src/Parser/Parser.cpp:216-220 | `++` after a literal is rejected just past it, with the identifier message |
| RecoveringParser.AssignmentRightAssociative | NexusCompiler/src/Parser/Parser.cpp:280-295 | `n0 = n1 = … = lit` nests to the right and stops after the literal |
| RecoveringParser.AssignmentStatementRejected | NexusCompiler/src/Parser/Parser.cpp:223-230 | as written, `x = lit ;` is always rejected, at the `;`, with "Expected expression, got TOK_SEMI" |
| RecoveringParser.AssignmentExpressionRejected | NexusCompiler/src/Parser/Parser.cpp:223-230 | as written, the expression part of `x = lit ;` is rejected at the `;` |
| RecoveringParser.AssignmentStatementIntended | NexusCompiler/src/Parser/Parser.cpp:223-230 | as intended, `x = lit ;` is an expression statement holding the `Assignment` |
| RecoveringParser.StmtTokens | NexusCompiler/src/Parser/Parser.cpp:163-178 | a written-out statement ends in `;` and starts with `return` or a token that starts an expression |
| RecoveringParser.ReturnValueRoundTrip | NexusCompiler/src/Parser/Parser.cpp:180-191 | `return a ;` is read back as that `Return` |
| RecoveringParser.VarDeclRoundTrip | NexusCompiler/src/Parser/Parser.cpp:193-209 | `T x = a ;` is read back as that declaration |
| RecoveringParser.AssignmentRoundTrip | NexusCompiler/src/Parser/Parser.cpp:223-230 | as intended, `x = a` before `;` is read back as that `Assignment` |
| RecoveringParser.ReturnOrDeclRoundTrip | NexusCompiler/src/Parser/Parser.cpp:163-209 | a written-out `return` or declaration is read back as itself, for statements that are simple statements over one-token atoms (`return ;`, `return a ;`, `T x = a ;`, `x ++ ;`, `x = a ;`, `a ;`, with `a` an identifier or an integer or string literal) |
| RecoveringParser.IncrementStmtRoundTrip | NexusCompiler/src/Parser/Parser.cpp:175-177 | `x ++ ;` is read back as that increment statement |
| RecoveringParser.AssignmentStmtRoundTrip | NexusCompiler/src/Parser/Parser.cpp:175-177 | as intended, `x = a ;` is read back as that assignment statement |
| RecoveringParser.AtomStmtRoundTrip | NexusCompiler/src/Parser/Parser.cpp:175-177 | `a ;` is read back as that expression statement |
| RecoveringParser.ExprStmtRoundTrip | NexusCompiler/src/Parser/Parser.cpp:175-177 | a written-out expression statement is read back as itself, for statements that are simple statements over one-token atoms (`return ;`, `return a ;`, `T x = a ;`, `x ++ ;`, `x = a ;`, `a ;`, with `a` an identifier or an integer or string literal) |
| RecoveringParser.StmtRoundTrip | NexusCompiler/src/Parser/Parser.cpp:163-209 | every written-out statement is read back as itself and ends where it was written, for statements that are simple statements over one-token atoms (`return ;`, `return a ;`, `T x = a ;`, `x ++ ;`, `x = a ;`, `a ;`, with `a` an identifier or an integer or string literal) |
| RecoveringParser.StmtsSplit | NexusCompiler/src/Parser/Parser.cpp:147-156 | written-out statements split into the first and the rest |
| RecoveringParser.StmtsRoundTrip | NexusCompiler/src/Parser/Parser.cpp:147-156 | the statement loop gives back written-out statements and stops at the `}` after them, for statements that are simple statements over one-token atoms (`return ;`, `return a ;`, `T x = a ;`, `x ++ ;`, `x = a ;`, `a ;`, with `a` an identifier or an integer or string literal) |
| RecoveringParser.BlockRoundTrip | NexusCompiler/src/Parser/Parser.cpp:142-161 | a written-out block is read back as itself, for statements that are simple statements over one-token atoms (`return ;`, `return a ;`, `T x = a ;`, `x ++ ;`, `x = a ;`, `a ;`, with `a` an identifier or an integer or string literal) |
| RecoveringParser.FunctionRoundTrip | NexusCompiler/src/Parser/Parser.cpp:109-140 | a written-out function is read back as itself, for statements that are simple statements over one-token atoms (`return ;`, `return a ;`, `T x = a ;`, `x ++ ;`, `x = a ;`, `a ;`, with `a` an identifier or an integer or string literal) |
| RecoveringParser.FunctionFromPieces | NexusCompiler/src/Parser/Parser.cpp:109-140 | a written-out header followed by a written-out block is that function |
| RecoveringParser.FunctionPieces | NexusCompiler/src/Parser/Parser.cpp:109-140 | a written-out function is its header's tokens, then its block's |
| RecoveringParser.FunctionsSplit | NexusCompiler/src/Parser/Parser.cpp:97-104 | written-out functions split into the first and the rest |
| RecoveringParser.FunctionsCons | NexusCompiler/src/Parser/Parser.cpp:97-104 | a round of the top-level loop over a written-out function keeps it in front of the later rounds |
| RecoveringParser.FunctionsRoundTrip | NexusCompiler/src/Parser/Parser.cpp:97-104 | the top-level loop gives back written-out functions up to the end, for statements that are simple statements over one-token atoms (`return ;`, `return a ;`, `T x = a ;`, `x ++ ;`, `x = a ;`, `a ;`, with `a` an identifier or an integer or string literal) |
| RecoveringParser.ProgramRoundTrip | NexusCompiler/src/Parser/Parser.cpp:94-107 | a written-out program, closed by `TOK_EOF`, is parsed back to itself: as written when it has no assignment statement, as intended whatever its statements, for statements that are simple statements over one-token atoms (`return ;`, `return a ;`, `T x = a ;`, `x ++ ;`, `x = a ;`, `a ;`, with `a` an identifier or an integer or string literal) |
| NexusParser.StmtsRoundAt | NexusCompiler/src/Parser/Parser.cpp:147-156 | one round of the statement loop and its exit, in terms of `StatementAt` and `synchronize` |
| NexusParser.FunctionsRoundAt | NexusCompiler/src/Parser/Parser.cpp:97-104 | one round of the top-level loop and its exit, in terms of `FunctionDeclAt` and `synchronize` |
| NexusParser.Parser.constructor | NexusCompilerV2/src/Parser/Parser.h:63-71 | the cursor starts at index 0 of its tokens, as the V2 header declares (the header beside NexusCompiler/src/Parser/Parser.cpp is not part of this model) |
| NexusParser.Parser.ParsePrimary | NexusCompiler/src/Parser/Parser.cpp:238-278 | gives what `PrimaryAt` says and leaves the cursor where it stops |
| NexusParser.Parser.ParseArguments | NexusCompiler/src/Parser/Parser.cpp:260-265 | the argument loop gives what `ArgsAt` says |
| NexusParser.Parser.ParseExpression | NexusCompiler/src/Parser/Parser.cpp:211-236 | gives what `ExpressionAt` says |
| NexusParser.Parser.ParseAssignment | NexusCompiler/src/Parser/Parser.cpp:280-295 | gives what `AssignmentAt` says |
| NexusParser.Parser.ParseReturnStatement | NexusCompiler/src/Parser/Parser.cpp:180-191 | gives what `ReturnAt` says |
| NexusParser.Parser.ParseVarDeclStatement | NexusCompiler/src/Parser/Parser.cpp:193-209 | gives what `VarDeclAt` says |
| NexusParser.Parser.ParseStatement | NexusCompiler/src/Parser/Parser.cpp:163-178 | gives what `StatementAt` says, when the unchecked look-ahead is in range |
| NexusParser.Parser.ParseStatements | NexusCompiler/src/Parser/Parser.cpp:147-156 | the statement loop collects what `StmtsFrom` says |
| NexusParser.Parser.ParseBlock | NexusCompiler/src/Parser/Parser.cpp:142-161 | gives what `BlockAt` says |
| NexusParser.Parser.ParseFunctionDecl | NexusCompiler/src/Parser/Parser.cpp:109-140 | gives what `FunctionDeclAt` says |
| NexusParser.Parser.Parse | NexusCompiler/src/Parser/Parser.cpp:94-107 | never fails, stops only at the end, and from the start gives `RecoveringParser.Parse` of the tokens |
| V1Grammar.Peek | NexusCompilerV1/src/Parsing/Parser.cpp:7-11 | the last token (the lexer's `eof`) at the end, else the token under the cursor, which is then not `eof` |
| V1Grammar.Advance | NexusCompilerV1/src/Parsing/Parser.cpp:13-17 | returns the token under the cursor and moves one place; at the end returns the previous token and stays |
| V1Grammar.MatchAt | NexusCompilerV1/src/Parsing/Parser.cpp:19-31 | the cursor moves one place exactly when `check(kind)` holds |
| V1Grammar.Consume | NexusCompilerV1/src/Parsing/Parser.cpp:33-37 | a successful `consume` moves exactly one place |
| V1Grammar.AsWrittenNeverAnswers | NexusCompilerV1/src/Parsing/Parser.cpp:7-11 | as written, `isAtEnd` and `peek` call each other without end on any position inside the list |
| V1Grammar.AsWrittenPastEnd | NexusCompilerV1/src/Parsing/Parser.cpp:39-41 | past the list the written `isAtEnd` answers, and agrees with the corrected one |
| V1Grammar.TypeAt | NexusCompilerV1/src/Parsing/Parser.cpp:425-439 | a type is read exactly at `i32`, `f64` or an identifier, taking one token and only its name; otherwise the error names the token found |
| V1Grammar.ExpressionAt | NexusCompilerV1/src/Parsing/Parser.cpp:282 | an expression that parses consumes at least one token |
| V1Grammar.AssignmentAt | NexusCompilerV1/src/Parsing/Parser.cpp:284-296 | an assignment that parses consumes at least one token |
| V1Grammar.ComparisonAt | NexusCompilerV1/src/Parsing/Parser.cpp:298-312 | a comparison that parses consumes at least one token |
| V1Grammar.ComparisonLoop | NexusCompilerV1/src/Parsing/Parser.cpp:305-309 | the `<`/`>` loop never moves backwards |
| V1Grammar.TermAt | NexusCompilerV1/src/Parsing/Parser.cpp:314-324 | a term that parses consumes at least one token |
| V1Grammar.TermLoop | NexusCompilerV1/src/Parsing/Parser.cpp:317-321 | the `+`/`-` loop never moves backwards |
| V1Grammar.FactorAt | NexusCompilerV1/src/Parsing/Parser.cpp:326-337 | a factor that parses consumes at least one token |
| V1Grammar.FactorLoop | NexusCompilerV1/src/Parsing/Parser.cpp:329-334 | the `*`/`/`/`%` loop never moves backwards |
| V1Grammar.UnaryAt | NexusCompilerV1/src/Parsing/Parser.cpp:339-348 | a unary expression that parses consumes at least one token |
| V1Grammar.CallAt | NexusCompilerV1/src/Parsing/Parser.cpp:350-377 | a call expression that parses consumes at least one token |
| V1Grammar.CallLoop | NexusCompilerV1/src/Parsing/Parser.cpp:353-374 | the postfix loop never moves backwards |
| V1Grammar.CommaUnlessClose | NexusCompilerV1/src/Parsing/Parser.cpp:359-361 | a comma is taken exactly when `)` does not follow; failing that, the token is neither `)` nor `,` |
| V1Grammar.ArgsLoop | NexusCompilerV1/src/Parsing/Parser.cpp:357-362 | the argument loop stops at `)` or at the end |
| V1Grammar.ArgumentsAt | NexusCompilerV1/src/Parsing/Parser.cpp:357-364 | the arguments end with the `)` consumed |
| V1Grammar.PrimaryAt | NexusCompilerV1/src/Parsing/Parser.cpp:379-418 | a primary that parses consumes at least one token |
| V1Grammar.NewAt | NexusCompilerV1/src/Parsing/Parser.cpp:394-409 | `new T(args)` gives a `NewExpr` |
| V1Grammar.GroupAt | NexusCompilerV1/src/Parsing/Parser.cpp:411-415 | a parenthesised expression that parses consumes at least one token |
| V1Grammar.StatementAt | NexusCompilerV1/src/Parsing/Parser.cpp:228-237 | a statement that parses consumes at least one token, and it is a `while` exactly after `while`, a block exactly at `{`, and an expression statement exactly otherwise |
| V1Grammar.WhileAt | NexusCompilerV1/src/Parsing/Parser.cpp:253-263 | a `while` that parses is a `WhileStmt` |
| V1Grammar.BlockAt | NexusCompilerV1/src/Parsing/Parser.cpp:239-251 | a block that parses is a `BlockStmt` that starts at `{` and ends at `}` |
| V1Grammar.StmtsLoop | NexusCompilerV1/src/Parsing/Parser.cpp:244-246 | the statement loop stops at `}` or at the end |
| V1Grammar.ExprStmtAt | NexusCompilerV1/src/Parsing/Parser.cpp:275-280 | an expression statement that parses ends at a `;` |
| V1Grammar.InitializerAt | NexusCompilerV1/src/Parsing/Parser.cpp:185-187 | there is an initialiser exactly when `=` follows the type |
| V1Grammar.VarDeclAt | NexusCompilerV1/src/Parsing/Parser.cpp:175-193 | a declaration takes at least `name : T ;`, is named after its first token, is not global and has a type |
| V1Grammar.ParamAt | NexusCompilerV1/src/Parsing/Parser.cpp:150-154 | a parameter is `name : T`, three tokens, named after the first |
| V1Grammar.ParamsLoop | NexusCompilerV1/src/Parsing/Parser.cpp:149-159 | the parameter loop stops at `)` or at the end |
| V1Grammar.MethodNameAt | NexusCompilerV1/src/Parsing/Parser.cpp:137-144 | the name is `Constructor`, which flags a constructor, or the identifier's text |
| V1Grammar.ReturnTypeAt | NexusCompilerV1/src/Parsing/Parser.cpp:163-167 | a constructor keeps the nameless default type and takes no token; any other method takes `-> T` |
| V1Grammar.MethodDeclAt | NexusCompilerV1/src/Parsing/Parser.cpp:134-173 | a method that parses is public by default, has a block body, and is a constructor exactly when it starts with `Constructor` |
| V1Grammar.MethodTail | NexusCompilerV1/src/Parsing/Parser.cpp:161-172 | the rest of a method keeps the name, the constructor flag and the parameters read before it |
| V1Grammar.Visibility | NexusCompilerV1/src/Parsing/Parser.cpp:94-99 | a member is public unless `private` stands before it; either keyword is consumed |
| V1Grammar.MemberAt | NexusCompilerV1/src/Parsing/Parser.cpp:101-126 | a method keeps the visibility and is a constructor exactly at `Constructor`; a field is an identifier not followed by `(`; anything else fails with the fixed member message |
| V1Grammar.MembersLoop | NexusCompilerV1/src/Parsing/Parser.cpp:92-127 | the member loop stops at `}` or at the end |
| V1Grammar.ClassDeclAt | NexusCompilerV1/src/Parsing/Parser.cpp:82-132 | a class that parses is public and named after the identifier after `class` |
| V1Grammar.PayloadAt | NexusCompilerV1/src/Parsing/Parser.cpp:211-214 | a variant has a payload exactly when `(` follows its name |
| V1Grammar.VariantAt | NexusCompilerV1/src/Parsing/Parser.cpp:205-216 | a variant is named after its identifier and has a payload exactly when `(` follows |
| V1Grammar.VariantsLoop | NexusCompilerV1/src/Parsing/Parser.cpp:204-221 | the variant loop stops at `}` or at the end |
| V1Grammar.SumTypeDeclAt | NexusCompilerV1/src/Parsing/Parser.cpp:195-226 | a sum type that parses has no generics and is named after the identifier after `Options` |
| V1Grammar.SkipSemicolons | NexusCompilerV1/src/Parsing/Parser.cpp:62-63 | the skip passes exactly the run of `;` |
| V1Grammar.DeclarationAt | NexusCompilerV1/src/Parsing/Parser.cpp:60-80 | `parseDeclaration` moves forward unless it starts at the end |
| V1Grammar.DeclarationAfter | NexusCompilerV1/src/Parsing/Parser.cpp:65-79 | after the `;` run: null exactly at the end, a class exactly after `class` |
| V1Grammar.ParseLoop | NexusCompilerV1/src/Parsing/Parser.cpp:47-52 | the declaration loop, when it succeeds, stops at the end |
| V1Facts.IdentifierFactor | NexusCompilerV1/src/Parsing/Parser.cpp:326-348 | a lone identifier is a whole unary expression and a whole factor, one token long |
| V1Facts.IdentifierComparison | NexusCompilerV1/src/Parsing/Parser.cpp:302-324 | a lone identifier is a whole comparison |
| V1Facts.RunStartEndsFactor | NexusCompilerV1/src/Parsing/Parser.cpp:317-321 | inside a run of `op x` pairs, every factor ends at the next operator |
| V1Facts.TermLoopFoldsLeft | NexusCompilerV1/src/Parsing/Parser.cpp:317-321 | the `+`/`-` loop over rounds whose operands parse as factors is their left fold, ending after the last round |
| V1Facts.TermFoldsLeft | NexusCompilerV1/src/Parsing/Parser.cpp:314-324 | `x op y op z ...` with `+`/`-` is left-nested |
| V1Facts.SubtractionAssociatesLeft | NexusCompilerV1/src/Parsing/Parser.cpp:314-324 | `a - b - c` is `(a - b) - c` |
| V1Facts.AssignmentStop | NexusCompilerV1/src/Parsing/Parser.cpp:284-296 | without `=` the assignment is the comparison itself |
| V1Facts.AssignmentNestsRight | NexusCompilerV1/src/Parsing/Parser.cpp:284-296 | a run of `= x` pairs nests to the right |
| V1Facts.AssignmentAssociatesRight | NexusCompilerV1/src/Parsing/Parser.cpp:282-296 | `a = b = c` is `a = (b = c)` |
| V1Facts.IdentifierUnary | NexusCompilerV1/src/Parsing/Parser.cpp:339-377 | an identifier followed by neither `(` nor `.` is a whole unary expression |
| V1Facts.ProductFactor | NexusCompilerV1/src/Parsing/Parser.cpp:326-337 | `b * c` is one factor |
| V1Facts.MultiplicationBindsTighter | NexusCompilerV1/src/Parsing/Parser.cpp:314-337 | `a + b * c` is `a + (b * c)` |
| V1Facts.UnaryMinusHasNoLeft | NexusCompilerV1/src/Parsing/Parser.cpp:339-345 | `- x` is a binary node with no left operand |
| V1Facts.EmptyCallStep | NexusCompilerV1/src/Parsing/Parser.cpp:354-365 | `( )` after an expression makes a call with no arguments |
| V1Facts.MemberStep | NexusCompilerV1/src/Parsing/Parser.cpp:366-370 | `. name` after an expression makes a member access |
| V1Facts.PostfixChainsLeftToRight | NexusCompilerV1/src/Parsing/Parser.cpp:350-377 | `f ( ) . m` is the member `m` of the call `f()` |
| V1Facts.TermLoopFoldsIdentifiers | NexusCompilerV1/src/Parsing/Parser.cpp:317-321 | the term loop over a run of `+`/`-` identifier pairs ending before any other operator folds them to the left, in order |
| V1Facts.ComparisonLoopFoldsLeft | NexusCompilerV1/src/Parsing/Parser.cpp:305-309 | the `<`/`>` loop over rounds whose operands parse as terms is their left fold, ending after the last round |
| V1Facts.FactorLoopFoldsLeft | NexusCompilerV1/src/Parsing/Parser.cpp:329-334 | the `*`/`/`/`%` loop over rounds whose operands parse as unary expressions is their left fold, ending after the last round |
| V1Facts.LoopStep | NexusCompilerV1/src/Parsing/Parser.cpp:298-337 | a round of any of the three loops fails with its operand's error, or folds the operand onto the left one and goes on after it |
| V1Facts.LoopFoldsLeft | NexusCompilerV1/src/Parsing/Parser.cpp:298-337 | each of the three loops, over the rounds the tokens hold, gives `((left op1 y1) op2 y2) …` and stops after the last round |
| V1Facts.LoopReadsRounds | NexusCompilerV1/src/Parsing/Parser.cpp:298-337 | conversely, every value one of the loops returns is the left fold of rounds the tokens hold |
| V1Facts.LevelFoldsLeft | NexusCompilerV1/src/Parsing/Parser.cpp:298-337 | a whole comparison, term or factor is its first operand folded to the left with the rounds after it |
| V1Facts.LevelReadsRounds | NexusCompilerV1/src/Parsing/Parser.cpp:298-337 | conversely, every comparison, term or factor that parses is such a fold |
| V1Facts.UnaryMinus | NexusCompilerV1/src/Parsing/Parser.cpp:339-345 | a minus before a unary expression `y` gives `BinaryExpr(null, -, y)`, ending where `y` ends |
| V1Facts.UnaryCall | NexusCompilerV1/src/Parsing/Parser.cpp:339-348 | without a leading minus a unary expression is the call expression there |
| V1Facts.MinusRun | NexusCompilerV1/src/Parsing/Parser.cpp:339-348 | `n` minus signs, then a call expression `y`: `y` under `n` null-left nodes, the first sign outermost |
| V1Facts.UnaryReadsMinusRun | NexusCompilerV1/src/Parsing/Parser.cpp:339-348 | conversely, every unary expression that parses is such a run of minus signs around a call expression |
| V1Facts.PrimaryAlternatives | NexusCompilerV1/src/Parsing/Parser.cpp:379-418 | `parsePrimary` tries `true`, the three literal kinds, an identifier, `new` and `(` in that order; any other token fails with an error naming it |
| V1Facts.GroupIsInner | NexusCompilerV1/src/Parsing/Parser.cpp:411-415 | a parenthesised expression is the inner expression, with the `)` after it consumed |
| V1StmtFacts.IdentifierExpression | NexusCompilerV1/src/Parsing/Parser.cpp:282-296 | a lone identifier not followed by `=` is the whole expression |
| V1StmtFacts.ExprStmtUnfold | NexusCompilerV1/src/Parsing/Parser.cpp:275-280 | an expression statement succeeds exactly when `;` follows the expression, and otherwise fails naming the token found |
| V1StmtFacts.IdentifierExprStmt | NexusCompilerV1/src/Parsing/Parser.cpp:275-280 | `x ;` is an expression statement two tokens long |
| V1StmtFacts.ExpressionStatement | NexusCompilerV1/src/Parsing/Parser.cpp:228-237 | `x ;` is read as an expression statement |
| V1StmtFacts.MissingSemicolon | NexusCompilerV1/src/Parsing/Parser.cpp:277-278 | `x }`: the error names the `}` |
| V1StmtFacts.OneStatementBlock | NexusCompilerV1/src/Parsing/Parser.cpp:239-251 | `{ x ; }` is a block of one expression statement |
| V1StmtFacts.EmptyBlockStatement | NexusCompilerV1/src/Parsing/Parser.cpp:228-251 | `{ }` is an empty block |
| V1DeclFacts.EmptyBlock | NexusCompilerV1/src/Parsing/Parser.cpp:239-251 | `{ }` is an empty block, two tokens long |
| V1DeclFacts.NoParameters | NexusCompilerV1/src/Parsing/Parser.cpp:146-159 | `( )` gives no parameters |
| V1DeclFacts.FieldDecl | NexusCompilerV1/src/Parsing/Parser.cpp:175-193 | `name : T ;` is a non-global variable with that name and type and no initialiser |
| V1DeclFacts.FieldMemberShape | NexusCompilerV1/src/Parsing/Parser.cpp:116-124 | `name : T ;` in a class is a field, whatever the visibility |
| V1DeclFacts.FieldWithoutSemicolon | NexusCompilerV1/src/Parsing/Parser.cpp:189-190 | a field without `;` fails naming the token found |
| V1DeclFacts.PlainMethodDecl | NexusCompilerV1/src/Parsing/Parser.cpp:134-173 | `name ( ) -> T { }` is a public method with that name and return type and an empty body |
| V1DeclFacts.PlainMethodTail | NexusCompilerV1/src/Parsing/Parser.cpp:161-172 | `) -> T { }` completes a method with an empty body |
| V1DeclFacts.MethodMemberShape | NexusCompilerV1/src/Parsing/Parser.cpp:101-114 | `name ( ) -> T { }` in a class is a method carrying the visibility in front of it |
| V1DeclFacts.ConstructorMemberShape | NexusCompilerV1/src/Parsing/Parser.cpp:101-114 | `Constructor ( ) { }` is a constructor with a nameless return type |
| V1DeclFacts.StrayMember | NexusCompilerV1/src/Parsing/Parser.cpp:125-126 | a member that starts with neither `Constructor` nor an identifier fails |
| V1DeclFacts.PrivateMethod | NexusCompilerV1/src/Parsing/Parser.cpp:94-114 | `private` in front of a method makes it private |
| V1DeclFacts.EmptyClass | NexusCompilerV1/src/Parsing/Parser.cpp:82-132 | `class C { }` is a public class with no members |
| V1DeclFacts.PlainVariant | NexusCompilerV1/src/Parsing/Parser.cpp:205-216 | a variant not followed by `(` has no payload |
| V1DeclFacts.PayloadVariant | NexusCompilerV1/src/Parsing/Parser.cpp:205-216 | `name ( T )` is a variant with a payload of type `T` |
| V1DeclFacts.PlainVariantThenComma | NexusCompilerV1/src/Parsing/Parser.cpp:204-221 | the variant loop takes `name ,` and goes on |
| V1DeclFacts.PayloadVariantThenClose | NexusCompilerV1/src/Parsing/Parser.cpp:204-221 | the variant loop ends at `}` after a payload variant |
| V1DeclFacts.TwoVariants | NexusCompilerV1/src/Parsing/Parser.cpp:195-226 | `Options S { A , B ( T ) }` has both variants, in order |
| V1DeclFacts.TwoVariantsLoop | NexusCompilerV1/src/Parsing/Parser.cpp:204-221 | the variant loop of that declaration |
| V1DeclFacts.SkipsSemicolonRun | NexusCompilerV1/src/Parsing/Parser.cpp:62-63 | the `;` run in front of a declaration is skipped exactly |
| V1DeclFacts.ParseLoopKeepsPrefix | NexusCompilerV1/src/Parsing/Parser.cpp:47-52 | the declarations already pushed stay in front, in order |
| V1DeclFacts.SemicolonsOnly | NexusCompilerV1/src/Parsing/Parser.cpp:43-80 | a list of `;` ending in `eof` is an empty program |
| V1DeclFacts.StrayTopLevelToken | NexusCompilerV1/src/Parsing/Parser.cpp:79 | any other top-level token fails, naming the token |
| V1DeclFacts.OneEmptyClass | NexusCompilerV1/src/Parsing/Parser.cpp:43-132 | `class C { } eof` is one class |
| V1Printer.AtomExpression | NexusCompilerV1/src/Parsing/Parser.cpp:282-418 | a one-token atom (an identifier or a literal `parsePrimary` accepts) before `;` or `)` is a whole expression, one token long |
| V1Printer.ExprStmtRoundTrip | NexusCompilerV1/src/Parsing/Parser.cpp:275-280 | `e ;` written out reads back as that expression statement, ending after the `;`, for trees whose expressions are one-token atoms (identifiers and the literals `parsePrimary` accepts) |
| V1Printer.WhileRoundTrip | NexusCompilerV1/src/Parsing/Parser.cpp:253-263 | `while ( c ) body` written out reads back as that `while`, ending after its body, for trees whose expressions are one-token atoms (identifiers and the literals `parsePrimary` accepts) |
| V1Printer.BlockRoundTrip | NexusCompilerV1/src/Parsing/Parser.cpp:239-251 | `{ statements }` written out reads back as that block, ending after the `}`, for trees whose expressions are one-token atoms (identifiers and the literals `parsePrimary` accepts) |
| V1Printer.StmtsRoundTrip | NexusCompilerV1/src/Parsing/Parser.cpp:244-246 | the statement loop over written-out statements appends exactly them, in order, and goes on after them, for trees whose expressions are one-token atoms (identifiers and the literals `parsePrimary` accepts) |
| V1Printer.StmtsWhole | NexusCompilerV1/src/Parsing/Parser.cpp:244-249 | written-out statements followed by `}` are the whole statement list of a block, for trees whose expressions are one-token atoms (identifiers and the literals `parsePrimary` accepts) |
| V1Printer.StmtRoundTrip | NexusCompilerV1/src/Parsing/Parser.cpp:228-280 | any written-out statement, nested to any depth, reads back as itself, ending after its tokens, for trees whose expressions are one-token atoms (identifiers and the literals `parsePrimary` accepts) |
| V1Printer.ParamsRoundTrip | NexusCompilerV1/src/Parsing/Parser.cpp:149-159 | the parameter loop over written-out `name : T` parameters appends exactly them, in order |
| V1Printer.ParamsWhole | NexusCompilerV1/src/Parsing/Parser.cpp:146-159 | written-out parameters followed by `)` are the whole parameter list |
| V1Printer.ReturnRoundTrip | NexusCompilerV1/src/Parsing/Parser.cpp:163-167 | a constructor reads no return type and keeps the nameless one; any other method reads back its `-> T` |
| V1Printer.MethodNameRoundTrip | NexusCompilerV1/src/Parsing/Parser.cpp:137-144 | a written-out method name reads back with its constructor flag |
| V1Printer.MethodParamsRoundTrip | NexusCompilerV1/src/Parsing/Parser.cpp:146-159 | the parameters of a written-out method read back up to its `)` |
| V1Printer.MethodHeadRoundTrip | NexusCompilerV1/src/Parsing/Parser.cpp:134-160 | after its name and parameters a written-out method reads as the rest of the method |
| V1Printer.MethodTailRoundTrip | NexusCompilerV1/src/Parsing/Parser.cpp:161-172 | the rest of a written-out method reads back its return type and body, for trees whose expressions are one-token atoms (identifiers and the literals `parsePrimary` accepts) |
| V1Printer.MethodDeclRoundTrip | NexusCompilerV1/src/Parsing/Parser.cpp:134-173 | a written-out method reads back as itself, made public, ending after its body, for trees whose expressions are one-token atoms (identifiers and the literals `parsePrimary` accepts) |
| V1Printer.InitializerRoundTrip | NexusCompilerV1/src/Parsing/Parser.cpp:185-187 | `= e` with an atom `e` reads back as that initialiser |
| V1Printer.VarDeclRoundTrip | NexusCompilerV1/src/Parsing/Parser.cpp:175-193 | a written-out field `name : T [= e] ;` reads back as itself, ending after the `;`, for trees whose expressions are one-token atoms (identifiers and the literals `parsePrimary` accepts) |
| V1Printer.FieldsRoundTrip | NexusCompilerV1/src/Parsing/Parser.cpp:92-127 | the member loop over written-out fields appends exactly them to the fields, in order, for trees whose expressions are one-token atoms (identifiers and the literals `parsePrimary` accepts) |
| V1Printer.MethodsRoundTrip | NexusCompilerV1/src/Parsing/Parser.cpp:92-127 | the member loop over written-out methods appends exactly them to the methods, in order, for trees whose expressions are one-token atoms (identifiers and the literals `parsePrimary` accepts) |
| V1DeclPrinter.VariantsRoundTrip | NexusCompilerV1/src/Parsing/Parser.cpp:204-221 | the variant loop over written-out variants appends exactly them, in order |
| V1DeclPrinter.VariantsWhole | NexusCompilerV1/src/Parsing/Parser.cpp:204-221 | written-out variants followed by `}` are the whole variant list |
| V1DeclPrinter.SumRoundTrip | NexusCompilerV1/src/Parsing/Parser.cpp:195-226 | a written-out `Options Name { variants }` reads back as that sum type |
| V1DeclPrinter.ClassRoundTrip | NexusCompilerV1/src/Parsing/Parser.cpp:82-132 | a written-out `class Name { fields methods }` reads back as that class, for trees whose expressions are one-token atoms (identifiers and the literals `parsePrimary` accepts) and whose classes list fields before methods |
| V1DeclPrinter.DeclarationRoundTrip | NexusCompilerV1/src/Parsing/Parser.cpp:60-80 | a written-out class or sum type is one declaration, ending after its tokens, for trees whose expressions are one-token atoms (identifiers and the literals `parsePrimary` accepts) and whose classes list fields before methods |
| V1DeclPrinter.DeclsRoundTrip | NexusCompilerV1/src/Parsing/Parser.cpp:47-52 | the declaration loop over written-out declarations appends exactly them, in order, for trees whose expressions are one-token atoms (identifiers and the literals `parsePrimary` accepts) and whose classes list fields before methods |
| V1DeclPrinter.ProgramLoop | NexusCompilerV1/src/Parsing/Parser.cpp:43-58 | written-out declarations followed by `eof` parse as the program of exactly them, for trees whose expressions are one-token atoms (identifiers and the literals `parsePrimary` accepts) and whose classes list fields before methods |
| V1DeclPrinter.ProgramRoundTrip | NexusCompilerV1/src/Parsing/Parser.cpp:43-58 | `parse` reads a written-out program back as the same program, for trees whose expressions are one-token atoms (identifiers and the literals `parsePrimary` accepts) and whose classes list fields before methods |
| V1Parser.Parser.constructor | NexusCompilerV1/src/Parsing/Parser.cpp:4-5 | a fresh parser holds the token list with the cursor at 0 |
| V1Parser.Parser.Advance | NexusCompilerV1/src/Parsing/Parser.cpp:13-17 | returns what `V1Grammar.Advance` gives from the starting position and leaves the cursor where that function stops |
| V1Parser.Parser.Match | NexusCompilerV1/src/Parsing/Parser.cpp:19-25 | returns what `V1Grammar.MatchAt` gives from the starting position and leaves the cursor where that function stops |
| V1Parser.Parser.Consume | NexusCompilerV1/src/Parsing/Parser.cpp:33-37 | returns what `V1Grammar.Consume` gives from the starting position and leaves the cursor where that function stops |
| V1Parser.Parser.ParseType | NexusCompilerV1/src/Parsing/Parser.cpp:425-439 | returns what `V1Grammar.TypeAt` gives from the starting position and leaves the cursor where that function stops |
| V1Parser.Parser.ParseExpression | NexusCompilerV1/src/Parsing/Parser.cpp:282 | returns what `V1Grammar.ExpressionAt` gives from the starting position and leaves the cursor where that function stops |
| V1Parser.Parser.ParseAssignment | NexusCompilerV1/src/Parsing/Parser.cpp:284-296 | returns what `V1Grammar.AssignmentAt` gives from the starting position and leaves the cursor where that function stops |
| V1Parser.Parser.ParseComparison | NexusCompilerV1/src/Parsing/Parser.cpp:298-312 | returns what `V1Grammar.ComparisonAt` gives from the starting position and leaves the cursor where that function stops |
| V1Parser.Parser.ParseTerm | NexusCompilerV1/src/Parsing/Parser.cpp:314-324 | returns what `V1Grammar.TermAt` gives from the starting position and leaves the cursor where that function stops |
| V1Parser.Parser.ParseFactor | NexusCompilerV1/src/Parsing/Parser.cpp:326-337 | returns what `V1Grammar.FactorAt` gives from the starting position and leaves the cursor where that function stops |
| V1Parser.Parser.ParseUnary | NexusCompilerV1/src/Parsing/Parser.cpp:339-348 | returns what `V1Grammar.UnaryAt` gives from the starting position and leaves the cursor where that function stops |
| V1Parser.Parser.ParseCall | NexusCompilerV1/src/Parsing/Parser.cpp:350-377 | returns what `V1Grammar.CallAt` gives from the starting position and leaves the cursor where that function stops |
| V1Parser.Parser.ParseArguments | NexusCompilerV1/src/Parsing/Parser.cpp:354-364 | returns what `V1Grammar.ArgumentsAt` gives from the starting position and leaves the cursor where that function stops |
| V1Parser.Parser.ParsePrimary | NexusCompilerV1/src/Parsing/Parser.cpp:379-418 | returns what `V1Grammar.PrimaryAt` gives from the starting position and leaves the cursor where that function stops |
| V1Parser.Parser.ParseNew | NexusCompilerV1/src/Parsing/Parser.cpp:394-409 | returns what `V1Grammar.NewAt` gives from the starting position and leaves the cursor where that function stops |
| V1Parser.Parser.ParseGroup | NexusCompilerV1/src/Parsing/Parser.cpp:411-415 | returns what `V1Grammar.GroupAt` gives from the starting position and leaves the cursor where that function stops |
| V1Parser.Parser.ParseStatement | NexusCompilerV1/src/Parsing/Parser.cpp:228-237 | returns what `V1Grammar.StatementAt` gives from the starting position and leaves the cursor where that function stops |
| V1Parser.Parser.ParseBlockStmt | NexusCompilerV1/src/Parsing/Parser.cpp:239-251 | returns what `V1Grammar.BlockAt` gives from the starting position and leaves the cursor where that function stops |
| V1Parser.Parser.ParseWhileStmt | NexusCompilerV1/src/Parsing/Parser.cpp:253-263 | returns what `V1Grammar.WhileAt` gives from the starting position and leaves the cursor where that function stops |
| V1Parser.Parser.ParseExprStmt | NexusCompilerV1/src/Parsing/Parser.cpp:275-280 | returns what `V1Grammar.ExprStmtAt` gives from the starting position and leaves the cursor where that function stops |
| V1Parser.Parser.ParseVarDecl | NexusCompilerV1/src/Parsing/Parser.cpp:175-193 | returns what `V1Grammar.VarDeclAt` gives from the starting position and leaves the cursor where that function stops |
| V1Parser.Parser.ParseMethodDecl | NexusCompilerV1/src/Parsing/Parser.cpp:134-173 | returns what `V1Grammar.MethodDeclAt` gives from the starting position and leaves the cursor where that function stops |
| V1Parser.Parser.ParseParam | NexusCompilerV1/src/Parsing/Parser.cpp:150-154 | returns what `V1Grammar.ParamAt` gives from the starting position and leaves the cursor where that function stops |
| V1Parser.Parser.ParseMethodTail | NexusCompilerV1/src/Parsing/Parser.cpp:161-172 | returns what `V1Grammar.MethodTail` gives from the starting position and leaves the cursor where that function stops |
| V1Parser.Parser.ParseClassDecl | NexusCompilerV1/src/Parsing/Parser.cpp:82-132 | returns what `V1Grammar.ClassDeclAt` gives from the starting position and leaves the cursor where that function stops |
| V1Parser.Parser.ParseVisibility | NexusCompilerV1/src/Parsing/Parser.cpp:94-99 | returns what `V1Grammar.Visibility` gives from the starting position and leaves the cursor where that function stops |
| V1Parser.Parser.ParseMember | NexusCompilerV1/src/Parsing/Parser.cpp:101-126 | returns what `V1Grammar.MemberAt` gives from the starting position and leaves the cursor where that function stops |
| V1Parser.Parser.ParseSumTypeDecl | NexusCompilerV1/src/Parsing/Parser.cpp:195-226 | returns what `V1Grammar.SumTypeDeclAt` gives from the starting position and leaves the cursor where that function stops |
| V1Parser.Parser.ParseVariant | NexusCompilerV1/src/Parsing/Parser.cpp:205-216 | returns what `V1Grammar.VariantAt` gives from the starting position and leaves the cursor where that function stops |
| V1Parser.Parser.ParseDeclaration | NexusCompilerV1/src/Parsing/Parser.cpp:60-80 | returns what `V1Grammar.DeclarationAt` gives from the starting position and leaves the cursor where that function stops |
| V1Parser.Parser.SkipSemicolonRun | NexusCompilerV1/src/Parsing/Parser.cpp:62-63 | returns what `V1Grammar.SkipSemicolons` gives from the starting position and leaves the cursor where that function stops |
| V1Parser.Parser.ParseDeclarationAfter | NexusCompilerV1/src/Parsing/Parser.cpp:65-79 | returns what `V1Grammar.DeclarationAfter` gives from the starting position and leaves the cursor where that function stops |
| V1Parser.Parser.Parse | NexusCompilerV1/src/Parsing/Parser.cpp:43-58 | the declaration loop collects exactly what `V1Grammar.ParseLoop` collects; an empty token list is an empty program |
| V1Parser.ParseTokens | NexusCompilerV1/src/Parsing/Parser.cpp:4-58 | a fresh parser's `parse` is `V1Grammar.Parse` |
| AstV1.SpacesEnd | NexusCompilerV1/src/Parsing/AST.cpp:9 | the index after the leading white space that `std::stoll` skips: every character passed is white space, the next one is not |
| AstV1.StoLL | NexusCompilerV1/src/Parsing/AST.cpp:8-12 | a value `std::stoll` returns always fits in `int64_t` |
| AstV1.LiteralOf | NexusCompilerV1/src/Parsing/AST.cpp:4 | `LiteralExpr(t)` keeps the token unchanged beside its value |
| AstV1.DigitsDecode | NexusCompilerV1/src/Parsing/AST.cpp:7-13 | a run of digits decodes to its decimal value when that fits in `int64_t`, and throws when it does not |
| AstV1.OverflowDecodesToZero | NexusCompilerV1/src/Parsing/AST.cpp:10-11 | an integer literal too large for `int64_t` stores 0 |
| AstV1.DigitsParse | NexusCompilerV1/src/Parsing/AST.cpp:9 | on a run of digits `stoll` skips nothing and reads the whole run |
| AstV1.DecodeRoundTrip | NexusCompilerV1/src/Parsing/AST.cpp:7-13 | every non-negative `int64_t` is decoded back from its decimal spelling |
| AstV1.NegativeDecode | NexusCompilerV1/src/Parsing/AST.cpp:9 | a minus sign and digits decode to the negated value, down to the least `int64_t` |
| AstV1.LeadingSpaceTrailingText | NexusCompilerV1/src/Parsing/AST.cpp:9 | leading white space is skipped and text after the digits is ignored: `" 12x"` is 12 |
| AstV1.NoDigitsDecodeToZero | NexusCompilerV1/src/Parsing/AST.cpp:8-12 | text without digits throws in `stoll` and the literal stores 0 |
| AstV1.BoolDecode | NexusCompilerV1/src/Parsing/AST.cpp:27-30 | `true` and boolean literals store a boolean that is true exactly for the text `true` |
| AstV1.OtherKindsKeepLexeme | NexusCompilerV1/src/Parsing/AST.cpp:23-35 | a string literal, and any other kind without a decoding of its own, stores its lexeme unchanged |
| LlvmIr.Lookup | NexusCompiler/src/CodeGen/CodeGen.cpp:91-92 | `namedValues.find`: an entry exactly when the name is bound, and then the bound entry |
| LlvmIr.Find | NexusCompiler/src/CodeGen/CodeGen.cpp:143-145 | `module->getFunction`: an index holding a function of that name, and none when no function has it |
| LlvmIr.FindByNames | NexusCompiler/src/CodeGen/CodeGen.cpp:143-145 | the lookup depends only on the functions' names |
| LlvmIr.NormaliseFunctionName | NexusCompiler/src/CodeGen/CodeGen.cpp:19-25 | every name other than `Main` and `Printf` is kept |
| LlvmIr.NormaliseIdempotent | NexusCompiler/src/CodeGen/CodeGen.cpp:19-25 | normalising twice is normalising once; the result is `main` exactly for `Main` or `main` and `printf` exactly for `Printf` or `printf` |
| LlvmIr.GetLlvmType | NexusCompiler/src/CodeGen/CodeGen.cpp:27-45 | a type name never yields a pointer type |
| LlvmIr.SpellingRoundTrip | NexusCompiler/src/CodeGen/CodeGen.cpp:27-45 | every type `getLLVMType` yields is the type of its own spelling |
| LlvmIr.TypeSpellings | NexusCompiler/src/CodeGen/CodeGen.cpp:27-45 | each type is yielded exactly for its listed spellings, and nothing is yielded exactly for every other name |
| LlvmIr.SpecifierChoice | NexusCompiler/src/CodeGen/CodeGen.cpp:65-80 | `%d` exactly for an unbound name or a 1- or 32-bit integer, `%lld` exactly for a 64-bit integer, `%p` exactly for `void` or a pointer |
| FormatText.WordEnd | NexusCompiler/src/CodeGen/CodeGen.cpp:53 | the end of the run of word characters starting at `j`, within the text |
| FormatText.WordEndSpec | NexusCompiler/src/CodeGen/CodeGen.cpp:53 | every character passed is a word character and the one at the end is not |
| FormatText.WordEndAt | NexusCompiler/src/CodeGen/CodeGen.cpp:53 | the run ends exactly at the first character that is not a word character |
| FormatText.PlaceholderEnd | NexusCompiler/src/CodeGen/CodeGen.cpp:53-59 | a placeholder match starts with `{`, ends with `}` and is at least three characters long |
| FormatText.PlaceholderName | NexusCompiler/src/CodeGen/CodeGen.cpp:53-62 | the captured name is a non-empty run of word characters |
| FormatText.ExpandInterpolation | NexusCompiler/src/CodeGen/CodeGen.cpp:47-86 | the formatted text and the placeholder names in order, as `ExpandedText` and `PlaceholderNames` define them |
| FormatText.ExpandStep | NexusCompiler/src/CodeGen/CodeGen.cpp:58-84 | at a placeholder the conversion for its variable is written and the name recorded; elsewhere the character is copied |
| FormatText.PlainTextKept | NexusCompiler/src/CodeGen/CodeGen.cpp:84 | text without `{` is copied unchanged and names nothing |
| FormatText.NamesAreWords | NexusCompiler/src/CodeGen/CodeGen.cpp:62-63 | every recorded name is a run of word characters |
| FormatText.PlaceholderSplit | NexusCompiler/src/CodeGen/CodeGen.cpp:58-82 | the text before the first placeholder is copied, the placeholder is replaced by its conversion and its name is recorded first |
| FormatText.PlaceholderAtStart | NexusCompiler/src/CodeGen/CodeGen.cpp:58-82 | a placeholder at the scan position is replaced by the conversion for its variable |
| FormatText.CopyUnfold | NexusCompiler/src/CodeGen/CodeGen.cpp:60-84 | a character other than `{` is copied and names nothing |
| FormatText.PlaceholderMatch | NexusCompiler/src/CodeGen/CodeGen.cpp:53 | `{word}` is matched exactly up to its `}` |
| FormatText.PairValue | NexusCompiler/src/CodeGen/CodeGen.cpp:328-330 | two hexadecimal digits give a byte |
| FormatText.FieldInjective | NexusCompiler/src/CodeGen/CodeGen.cpp:332-333 | a decimal field followed by its terminator is read back in one way only |
| FormatText.HexCodeToAnsi | NexusCompiler/src/CodeGen/CodeGen.cpp:324-334 | every colour `#rrggbb` is a colour match and becomes the SGR sequence of its own three bytes |
| FormatText.SgrInjective | NexusCompiler/src/CodeGen/CodeGen.cpp:332-333 | distinct colours give distinct SGR sequences |
| FormatText.ReplaceStep | NexusCompiler/src/CodeGen/CodeGen.cpp:337-351 | at a colour match the seven characters become their SGR sequence; elsewhere one character is copied |
| FormatText.ReplaceHexColors | NexusCompiler/src/CodeGen/CodeGen.cpp:336-353 | the replaced text is `ReplaceColours` of the input |
| FormatText.NoHashPrefix | NexusCompiler/src/CodeGen/CodeGen.cpp:346 | text without `#` in front of the rest is copied unchanged |
| FormatText.CopyFirst | NexusCompiler/src/CodeGen/CodeGen.cpp:346 | a first character other than `#` is copied |
| FormatText.SgrShape | NexusCompiler/src/CodeGen/CodeGen.cpp:332-333 | an SGR sequence starts with ESC and holds no `#` |
| FormatText.FieldNoHash | NexusCompiler/src/CodeGen/CodeGen.cpp:332-333 | a decimal field adds no `#` |
| FormatText.NoHashConcat | NexusCompiler/src/CodeGen/CodeGen.cpp:332-333 | text without `#` put together has none |
| FormatText.FirstNotHex | NexusCompiler/src/CodeGen/CodeGen.cpp:337 | replacement keeps a non-hexadecimal first character non-hexadecimal |
| FormatText.NoColourFixed | NexusCompiler/src/CodeGen/CodeGen.cpp:336-353 | text with no colour match is unchanged |
| FormatText.CopiedHashStaysInert | NexusCompiler/src/CodeGen/CodeGen.cpp:337-348 | a `#` that did not start a match does not start one after the rest is replaced |
| FormatText.HexRunIsColour | NexusCompiler/src/CodeGen/CodeGen.cpp:337 | `#` followed by six hexadecimal digits is a colour match |
| FormatText.NonHexSurvives | NexusCompiler/src/CodeGen/CodeGen.cpp:337-351 | a non-hexadecimal character of the input leaves one at or before its place in the output |
| FormatText.FirstNonHex | NexusCompiler/src/CodeGen/CodeGen.cpp:337 | the first non-hexadecimal character, with only hexadecimal digits before it |
| FormatText.NoColourAfterNoHash | NexusCompiler/src/CodeGen/CodeGen.cpp:337 | text without `#` in front of colour-free text keeps it colour-free |
| FormatText.NoColourCons | NexusCompiler/src/CodeGen/CodeGen.cpp:337 | a character that starts no match in front of colour-free text keeps it colour-free |
| FormatText.ReplacedHasNoColour | NexusCompiler/src/CodeGen/CodeGen.cpp:336-353 | the replaced text holds no colour match |
| FormatText.ReplaceIdempotent | NexusCompiler/src/CodeGen/CodeGen.cpp:336-353 | replacing colours twice is replacing them once |
| FormatText.FormatString | NexusCompiler/src/CodeGen/CodeGen.cpp:117-121 | the format string ends with the reset sequence |
| FormatText.KeepsFinalNewline | NexusCompiler/src/CodeGen/CodeGen.cpp:117-120 | colour replacement keeps a final newline |
| FormatText.FormatEndsWithNewline | NexusCompiler/src/CodeGen/CodeGen.cpp:117-121 | a newline stands right before the reset sequence |
| Lowering.Int32Bits | NexusCompiler/src/CodeGen/CodeGen.cpp:99-100 | `ConstantInt::get(i32, v)` keeps the low 32 bits: below 2^32, and `v` itself when it fits |
| Lowering.LowerExpr | NexusCompiler/src/CodeGen/CodeGen.cpp:88-191 | lowering an expression only appends to the block, the globals and the log, leaves the symbol table and the module alone, and returns null exactly when it logs a message |
| Lowering.LowerIdent | NexusCompiler/src/CodeGen/CodeGen.cpp:90-96 | the same for an identifier |
| Lowering.LowerCall | NexusCompiler/src/CodeGen/CodeGen.cpp:107-159 | the same for a call |
| Lowering.LowerAssignment | NexusCompiler/src/CodeGen/CodeGen.cpp:161-173 | the same for an assignment |
| Lowering.LowerIncrement | NexusCompiler/src/CodeGen/CodeGen.cpp:175-188 | the same for `++` |
| Lowering.LowerArgs | NexusCompiler/src/CodeGen/CodeGen.cpp:150-156 | the argument loop stops at the first argument that fails; on success one value per argument, after those already collected |
| Lowering.LowerPrintf | NexusCompiler/src/CodeGen/CodeGen.cpp:110-140 | the interpolating path only appends and returns null exactly when it logs |
| Lowering.LoadNames | NexusCompiler/src/CodeGen/CodeGen.cpp:130-137 | one load per placeholder name; it succeeds exactly when every name is bound, and otherwise logs one message |
| Lowering.IdentifierLoads | NexusCompiler/src/CodeGen/CodeGen.cpp:90-96 | an unbound name fails with `Unknown variable`; a bound one is loaded from its slot and the load is the value |
| Lowering.IntegerLiteralTruncates | NexusCompiler/src/CodeGen/CodeGen.cpp:98-101 | an integer literal is an `i32` constant of the low 32 bits of its decimal value and emits nothing |
| Lowering.AssignmentStores | NexusCompiler/src/CodeGen/CodeGen.cpp:161-173 | assigning to a bound name stores the value into its slot and yields it; a failed value stores nothing |
| Lowering.IncrementAddsOne | NexusCompiler/src/CodeGen/CodeGen.cpp:175-188 | `x++` emits a load, an add of one of the variable's type and a store of the sum, and yields the sum |
| Lowering.AssignExprRejected | NexusCompiler/src/CodeGen/CodeGen.cpp:190 | an assignment expression node is not lowered: `Unknown expression type` |
| Lowering.CallChecksCallee | NexusCompiler/src/CodeGen/CodeGen.cpp:143-158 | an undeclared callee fails, a fixed-arity callee with the wrong argument count fails before any argument is lowered, and a successful call ends the block with a call on one value per argument |
| Lowering.PrintfInterpolates | NexusCompiler/src/CodeGen/CodeGen.cpp:110-140 | the interpolating `printf` succeeds exactly when `printf` is declared and every placeholder is bound; its format is added as a global and the call passes that global and one load per placeholder |
| Lowering.PrintfLiteralInterpolates | NexusCompiler/src/CodeGen/CodeGen.cpp:108-115 | `Printf` or `printf` on one string literal takes the interpolating path |
| Lowering.LowerStmt | NexusCompiler/src/CodeGen/CodeGen.cpp:193-232 | a statement leaves the module alone, only appends, changes the symbol table only at a declaration's own name, and ends the block only when it is a return |
| Lowering.VarDeclBinds | NexusCompiler/src/CodeGen/CodeGen.cpp:195-213 | an unknown type logs two messages and emits nothing; otherwise the slot is allocated first and the name is bound to it unless the initializer fails |
| Lowering.ReturnEndsBlock | NexusCompiler/src/CodeGen/CodeGen.cpp:219-229 | a bare return, or a return whose value lowers, terminates the block |
| Lowering.TerminatedBlockStops | NexusCompiler/src/CodeGen/CodeGen.cpp:235-237 | once the block has a terminator no further statement is lowered |
| Lowering.LowerStmts | NexusCompiler/src/CodeGen/CodeGen.cpp:234-240 | a block of statements leaves the module alone and only appends |
| Lowering.StmtsEndAtTerminator | NexusCompiler/src/CodeGen/CodeGen.cpp:234-240 | after a block of statements at most the last new instruction is a terminator |
| Lowering.ParamTypes | NexusCompiler/src/CodeGen/CodeGen.cpp:247-253 | the parameter types succeed exactly when every parameter's type is known, giving them in order; on failure only one message is logged |
| Lowering.Declare | NexusCompiler/src/CodeGen/CodeGen.cpp:255-260 | after the declaration the name is in the module; a function is added, returning `i32` with the given parameter types, exactly when none had the name |
| Lowering.BindParams | NexusCompiler/src/CodeGen/CodeGen.cpp:267-276 | each argument gets an alloca and a store, and the symbol table gains exactly the parameter names |
| Lowering.Erase | NexusCompiler/src/CodeGen/CodeGen.cpp:288 | `eraseFromParent` removes exactly the function at `k` and keeps the others in order |
| Lowering.LowerBody | NexusCompiler/src/CodeGen/CodeGen.cpp:262-285 | lowering a body leaves the module's function list alone and only appends globals and messages |
| Lowering.Commit | NexusCompiler/src/CodeGen/CodeGen.cpp:287-292 | a function `verifyFunction` accepts keeps its new block and every other function is unchanged; a rejected one is erased |
| Lowering.UnknownParamTypeFails | NexusCompiler/src/CodeGen/CodeGen.cpp:248-251 | a parameter of unknown type fails the definition before anything is declared or emitted, logging one message |
| Lowering.FunctionEndsWithTerminator | NexusCompiler/src/CodeGen/CodeGen.cpp:278-285 | the entry block ends with the body's return or the added `ret i32 0`, with no terminator before its end |
| Lowering.BodyEndsWithTerminator | NexusCompiler/src/CodeGen/CodeGen.cpp:278-285 | statements lowered into an open block, then closed, give a well-terminated block |
| Lowering.FunctionDeclared | NexusCompiler/src/CodeGen/CodeGen.cpp:243-292 | a definition that is kept is in the module under its normalised name with its block last; earlier declarations keep their signatures; a new one returns `i32` with one parameter per parameter |
| Lowering.FunctionKeepsModuleWellTerminated | NexusCompiler/src/CodeGen/CodeGen.cpp:242-293 | lowering a definition keeps every block of the module well terminated, whether the function is kept or erased |
| Lowering.StatementErrorsDoNotFail | NexusCompiler/src/CodeGen/CodeGen.cpp:242-293 | with known parameter types and a verifier that accepts everything, a definition never fails, whatever its statements log |
| Lowering.ArityCovers | NexusCompiler/src/CodeGen/CodeGen.cpp:267-269 | a module whose arity for the name is at most the definition's parameter count lets the argument loop read the definition's parameters |
| Lowering.ArityAfterFunction | NexusCompiler/src/CodeGen/CodeGen.cpp:255-260 | a kept definition keeps the arity table exact |
| Lowering.StartArity | NexusCompiler/src/CodeGen/CodeGen.cpp:299-305 | right after `printf` is declared the module holds it alone, variadic with one pointer parameter |
| Lowering.FunctionsKeepModule | NexusCompiler/src/CodeGen/CodeGen.cpp:307-310 | lowering the definitions without a failure keeps every block well terminated |
| Lowering.FunctionsKeepDeclarations | NexusCompiler/src/CodeGen/CodeGen.cpp:307-310 | lowering the definitions keeps the signatures of the functions already declared |
| Lowering.FunctionsKeepNames | NexusCompiler/src/CodeGen/CodeGen.cpp:307-310 | lowering the definitions keeps every declared name declared |
| Lowering.FunctionsDeclareNames | NexusCompiler/src/CodeGen/CodeGen.cpp:307-310 | after the loop every definition is declared under its normalised name |
| Lowering.FunctionStep | NexusCompiler/src/CodeGen/CodeGen.cpp:242-293 | one kept definition carries the arity table, well-terminated blocks and the old signatures to the next |
| Lowering.GenerateKeepsPrintf | NexusCompiler/src/CodeGen/CodeGen.cpp:295-321 | a successful `generate` had its output file open and keeps `printf` first |
| Lowering.GenerateWellTerminated | NexusCompiler/src/CodeGen/CodeGen.cpp:295-321 | after a successful `generate` every block is well terminated |
| Lowering.GenerateDeclaresAll | NexusCompiler/src/CodeGen/CodeGen.cpp:295-321 | after a successful `generate` every definition is in the module under its normalised name |
| Lowering.UnopenedOutputFails | NexusCompiler/src/CodeGen/CodeGen.cpp:314-319 | `generate` fails when the output file cannot be opened |
| CodeGen.CodeGenerator.constructor | NexusCompiler/src/CodeGen/CodeGen.cpp:8-12 | a fresh generator has an empty symbol table, module, block and log |
| CodeGen.CodeGenerator.LogError | NexusCompiler/src/CodeGen/CodeGen.cpp:14-17 | `logErrorV` adds its message to the log and changes nothing else |
| CodeGen.CodeGenerator.Insert | NexusCompiler/src/CodeGen/CodeGen.cpp:94-95 | an `IRBuilder` call appends one instruction and returns its result |
| CodeGen.CodeGenerator.GetLlvmTypeOf | NexusCompiler/src/CodeGen/CodeGen.cpp:27-45 | the type of `getLLVMType`; an unknown name logs `Unknown type: ` and the name, and a known one changes nothing |
| CodeGen.CodeGenerator.CodegenExpr | NexusCompiler/src/CodeGen/CodeGen.cpp:88-191 | leaves the state, and returns the value, that `Lowering.LowerExpr` computes from the state before it |
| CodeGen.CodeGenerator.CodegenCall | NexusCompiler/src/CodeGen/CodeGen.cpp:107-159 | leaves the state, and returns the value, that `Lowering.LowerCall` computes from the state before it |
| CodeGen.CodeGenerator.CodegenPrintf | NexusCompiler/src/CodeGen/CodeGen.cpp:110-140 | leaves the state, and returns the value, that `Lowering.LowerPrintf` computes from the state before it |
| CodeGen.CodeGenerator.LoadPlaceholders | NexusCompiler/src/CodeGen/CodeGen.cpp:130-137 | leaves the state, and returns the value, that `Lowering.LoadNames` computes from the state before it |
| CodeGen.CodeGenerator.CodegenAssignment | NexusCompiler/src/CodeGen/CodeGen.cpp:161-173 | leaves the state, and returns the value, that `Lowering.LowerAssignment` computes from the state before it |
| CodeGen.CodeGenerator.CodegenIncrement | NexusCompiler/src/CodeGen/CodeGen.cpp:175-188 | leaves the state, and returns the value, that `Lowering.LowerIncrement` computes from the state before it |
| CodeGen.CodeGenerator.CodegenStmt | NexusCompiler/src/CodeGen/CodeGen.cpp:193-232 | leaves the state that `Lowering.LowerStmt` computes from the state before it |
| CodeGen.CodeGenerator.CodegenBlock | NexusCompiler/src/CodeGen/CodeGen.cpp:234-240 | leaves the state that `Lowering.LowerStmts` computes from the state before it |
| CodeGen.CodeGenerator.CodegenFunction | NexusCompiler/src/CodeGen/CodeGen.cpp:242-293 | leaves the state, and returns the value, that `Lowering.LowerFunction` computes from the state before it |
| CodeGen.CodeGenerator.TypeParams | NexusCompiler/src/CodeGen/CodeGen.cpp:247-253 | leaves the state, and returns the value, that `Lowering.ParamTypes` computes from the state before it |
| CodeGen.CodeGenerator.DefineBody | NexusCompiler/src/CodeGen/CodeGen.cpp:262-285 | leaves the state, and returns the value, that `Lowering.LowerBody` computes from the state before it |
| CodeGen.CodeGenerator.BindArguments | NexusCompiler/src/CodeGen/CodeGen.cpp:265-276 | leaves the state, and returns the value, that `Lowering.BindParams` computes from the state before it |
| CodeGen.CodeGenerator.CommitFunction | NexusCompiler/src/CodeGen/CodeGen.cpp:287-292 | leaves the state, and returns the value, that `Lowering.Commit` computes from the state before it |
| CodeGen.CodeGenerator.Generate | NexusCompiler/src/CodeGen/CodeGen.cpp:295-322 | leaves the state, and returns the value, that `Lowering.Generate` computes from the state before it |
| CodeGen.CodeGenerator.CodegenFunctions | NexusCompiler/src/CodeGen/CodeGen.cpp:307-310 | leaves the state, and returns the value, that `Lowering.LowerFunctions` computes from the state before it |
| CodeGen.CodeGenerator.DeclareFunction | NexusCompiler/src/CodeGen/CodeGen.cpp:255-260 | the module becomes `Lowering.Declare` of the old one and the returned index holds the name |
| JsonUtils.EscapeChar | NexusCompilerV2/src/AST/AST.h:20-50 | every character becomes a non-empty chunk |
| JsonUtils.Escape | NexusCompilerV2/src/AST/AST.h:16-54 | the stream's contents are the quoted escape of the whole input, as `Escaped` defines it |
| JsonUtils.EscapeBodyAppend | NexusCompilerV2/src/AST/AST.h:19-51 | escaping is chunk by chunk: the escape of a concatenation is the concatenation of the escapes |
| JsonUtils.EscapeBodySnoc | NexusCompilerV2/src/AST/AST.h:19-51 | one more character adds exactly its own chunk |
| JsonUtils.NamedEscapes | NexusCompilerV2/src/AST/AST.h:21-41 | `"` and `\\` are escaped with a backslash; backspace, form feed, newline, carriage return and tab get their two-character escapes |
| JsonUtils.UnicodeEscape | NexusCompilerV2/src/AST/AST.h:43-46 | any other control character becomes `\u00` and two lowercase hex digits whose value is the character |
| JsonUtils.CopiedUnchanged | NexusCompilerV2/src/AST/AST.h:47-48 | every other character is copied as it is |
| JsonUtils.ChunkHasNoControl | NexusCompilerV2/src/AST/AST.h:20-50 | no chunk holds a raw control character |
| JsonUtils.NoRawControl | NexusCompilerV2/src/AST/AST.h:16-54 | the escaped text holds no raw control character |
| JsonUtils.QuotedAndLonger | NexusCompilerV2/src/AST/AST.h:18-52 | the result is enclosed in quotes and longer than the input by at least two |
| JsonUtils.QuotesAreEscaped | NexusCompilerV2/src/AST/AST.h:21-23 | every quote inside the body follows a backslash |
| JsonUtils.UnicodeAt | NexusCompilerV2/src/AST/AST.h:43-46 | a `\uXXXX` escape is six characters long |
| JsonUtils.CodeUnit | NexusCompilerV2/src/AST/AST.h:43-46 | four hex digits give a 16-bit code unit |
| JsonUtils.ChunkRoundTrip | NexusCompilerV2/src/AST/AST.h:20-50 | a JSON reader takes each chunk back to its character |
| JsonUtils.RoundTrip | NexusCompilerV2/src/AST/AST.h:16-54 | unescaping the escaped body gives the input back |
| SemanticTokens.WordKind | LSP/server.js:359-369 | a word's legend index is keyword, type, function or variable |
| SemanticTokens.FunctionWords | LSP/server.js:361-366 | only `printf` and `warnf` are ever highlighted as functions |
| SemanticTokens.MathRandomIsType | LSP/server.js:363-364 | `Math.Random`, although listed as a built-in, is highlighted as a type |
| SemanticTokens.CapitalisedWords | LSP/server.js:361-364 | a capitalised word is a keyword exactly for `Constructor`, `Factory` and `Sequential`, and otherwise a type |
| SemanticTokens.IndexOf | LSP/server.js:271-289 | `indexOf`: -1 or an occurrence at or after `from`, with none before it |
| SemanticTokens.StringEnd | LSP/server.js:313-316 | the string loop stops at the first quote not preceded by a backslash, or at the end |
| SemanticTokens.NumberEnd | LSP/server.js:336-338 | the number loop passes exactly the run of `[0-9.eE+-]` |
| SemanticTokens.WordEnd | LSP/server.js:352-354 | the word loop passes exactly the run of `[a-zA-Z0-9_.]` |
| SemanticTokens.Scan | LSP/server.js:247-395 | every turn of the loop moves forward and stays within the text |
| SemanticTokens.Spans | LSP/server.js:247-395 | the tokens pushed are inside the text, non-empty, of a legend index and in order without overlap |
| SemanticTokens.ScanShape | LSP/server.js:251-394 | each token has the shape its kind calls for: a `/*` comment runs to the line's end, a `/!` comment to its `!/` or the end, a number or word over its run of characters with the word's index, an operator or punctuation mark is one character |
| SemanticTokens.SpansShape | LSP/server.js:247-395 | every token pushed has that shape |
| SemanticTokens.NumberTakesSigns | LSP/server.js:336 | `1-2` is one number token |
| SemanticTokens.BangCommentNeedsItsOwnCloser | LSP/server.js:289 | `/!/ x` opens a comment that runs to the end of the text |
| SemanticTokens.WalkSplit | LSP/server.js:224-236 | walking a text in two parts is walking it at once |
| SemanticTokens.WalkFlat | LSP/server.js:227-234 | without a newline the walk only moves the column, by the text's length |
| SemanticTokens.WalkAdvances | LSP/server.js:227-234 | walking over at least one character moves the position strictly forward |
| SemanticTokens.PositionAfter | LSP/server.js:224-236 | the position of a later offset is the walk from an earlier one |
| SemanticTokens.PositionFlat | LSP/server.js:279-372 | on one line, the column moves by the token's length |
| SemanticTokens.PositionIncreasing | LSP/server.js:251-262 | a later offset has a strictly later position |
| SemanticTokens.Placed | LSP/server.js:268-269 | each token gets the line and column of its first character |
| SemanticTokens.Record | LSP/server.js:239-245 | `pushToken` appends five integers |
| SemanticTokens.Encode | LSP/server.js:239-245 | five integers per token |
| SemanticTokens.EncodeAt | LSP/server.js:240-244 | record `k` is token `k` relative to token `k - 1` |
| SemanticTokens.Decode | LSP/server.js:239-245 | the client's reading gives one token per five integers |
| SemanticTokens.DecodeEncode | LSP/server.js:239-245 | the client recovers every token from the relative encoding |
| SemanticTokens.RecordFields | LSP/server.js:240-242 | over tokens in increasing position no delta is negative, after the first not both deltas are zero, and each record carries the length, the type and modifier 0 |
| SemanticTokens.TokensIncreasing | LSP/server.js:247-395 | the tokens of a document come in strictly increasing position |
| SemanticTokens.HighlightRecords | LSP/server.js:210-398 | the answer is whole five-integer records with no negative delta, no two zero deltas after the first, a non-empty length, a legend index and no modifiers |
| SemanticTokens.HighlightDecodes | LSP/server.js:210-398 | reading the answer back gives each scanned token, in order, at the line and column of its first character |
| SemanticTokens.ScanWord | LSP/server.js:347-373 | a word token runs to the end of the word and gets the word's index |
| SemanticTokens.ScanString | LSP/server.js:308-327 | a string token runs to its closing quote, included, or to the end |
| SemanticTokens.ScanNumber | LSP/server.js:331-343 | a number token runs over its run of number characters |
| Highlighting.Highlighter.constructor | LSP/server.js:214-221 | the scan starts at offset 0, line 0, column 0, with no data |
| Highlighting.Highlighter.GetEndPosition | LSP/server.js:224-236 | `getEndPosition` is the walk of the text from the current line and column |
| Highlighting.Highlighter.PushToken | LSP/server.js:239-245 | `pushToken` appends the token's record relative to the last token and makes it the last token |
| Highlighting.Highlighter.Run | LSP/server.js:247-395 | the data gathered is `Highlight` of the text |
| Highlighting.Highlighter.Turn | LSP/server.js:248-394 | one turn keeps the scan state consistent and moves forward |
| Highlighting.Highlighter.NewLine | LSP/server.js:251-256 | a newline moves to the next line and pushes nothing |
| Highlighting.Highlighter.SkipChar | LSP/server.js:259-394 | white space and unknown characters move one column and push nothing |
| Highlighting.Highlighter.SingleToken | LSP/server.js:377-390 | an operator or punctuation mark is pushed as one character |
| Highlighting.Highlighter.LineComment | LSP/server.js:266-281 | a `/*` comment is pushed and the scan goes on at the line's end |
| Highlighting.Highlighter.BlockComment | LSP/server.js:284-305 | a `/!` comment is pushed and the position follows it across lines |
| Highlighting.Highlighter.StringToken | LSP/server.js:308-328 | a string is pushed and the position follows it across lines |
| Highlighting.Highlighter.SkipString | LSP/server.js:313-316 | the loop ends where `StringEnd` says |
| Highlighting.Highlighter.NumberToken | LSP/server.js:331-344 | a number is pushed over its run |
| Highlighting.Highlighter.WordToken | LSP/server.js:347-374 | a word is pushed with its kind |
| Highlighting.SemanticTokensOf | LSP/server.js:210-397 | no document gives no data; a document gives `Highlight` of its text |
| Diagnostics.Count | LSP/server.js:189-190 | a count is at most the text's length |
| Diagnostics.CountAppend | LSP/server.js:189-190 | counts add over concatenation |
| Diagnostics.CountIsOffsets | LSP/server.js:189-190 | the count is the number of offsets holding the character |
| Diagnostics.BraceMessageInjective | LSP/server.js:199 | the message names both counts: equal messages mean equal counts |
| Diagnostics.Validate | LSP/server.js:185-205 | at most one diagnostic, present exactly when the brace counts differ, an error over the whole text from `nexus-lsp` |
| Diagnostics.ValidateReports | LSP/server.js:192-201 | the diagnostic reports the two counts, which differ |
| Diagnostics.BalancedConcat | LSP/server.js:185-205 | two documents without a diagnostic, put together, have none |

## Left out

- File and console I/O are not modelled. This covers `fileToString`/`readFile` (NexusCompiler/src/FileReader/FileReader.cpp:8-27 and the V2 copy), the `main.cpp` drivers, the debug output on `std::cout`/`std::cerr`, and the printers of trees and token lists.
- The V2 `uncommentedCode` (NexusCompilerV2/src/FileReader/FileReader.cpp:33) is left out. It prints its argument and returns it unchanged, and its caller discards the result. The stripper modelled is the NexusCompiler one.
- The V1 `parseIfStmt`, `parseReturnStmt` and `parseMatchExpr` (NexusCompilerV1/src/Parsing/Parser.cpp:265-273, 420-423) are left out. They only throw, and no other code calls them.
- AstV1.LiteralValue: a `lit_float` keeps its lexeme as text (`FloatValue`). `std::stod` is not modelled, because floating point is outside this model.
- The `toJson` and `print` members of the tree nodes are not modelled. Only `json_utils::escape` is, because the rest concatenates its output.
- JsonUtils.Unescape reads back only the forms that `escape` writes. It is a reader for the round trip, not a JSON parser.
- NexusCompiler/src/Dictionary/TokenType.h is not part of this model. The kinds that NexusCompiler/src/Dictionary/TokenTable.cpp names are modelled as the V2 kinds plus `TOK_COMMA`. The V2 `GetInfo` is undefined on that extra kind.
- RecoveringParser.StmtsFrom, RecoveringParser.BlockAt and the other RecoveringParser functions require `SafeEnd`: no identifier is the last token. `parseStatement` reads `tokens[currentIndex + 1]` unchecked (NexusCompiler/src/Parser/Parser.cpp:169). That read is out of range for such a list, and C++ leaves its behaviour undefined.
- NexusParser.Parser.ParseStatement requires `LookaheadSafe`, and NexusParser.Parser.Parse and the methods it calls require `SafeEnd`, for the same reason.
- Lowering.LowerExpr requires `LowerableExpr`: every integer literal is decimal and below 2^63, so `std::stoll` does not throw. The thrown exception is not modelled.
- Lowering.LowerStmt requires `LowerableStmt`: the integer literals as above, and an expression statement holds an expression. `ExprStmt` with a null expression would be dereferenced.
- Lowering.LowerFunction requires `LowerableFunction` and `ParamsCovered`: the body is present, and an earlier declaration of the same name has no more parameters than the definition. Otherwise `func.params[idx++]` (NexusCompiler/src/CodeGen/CodeGen.cpp:269) reads out of range.
- Lowering.LowerFunctions requires `AritiesCovered` for the same reason.
- Lowering.LowerFunction takes LLVM's `verifyFunction` as the parameter `broken`. Lowering.Generate takes the writability of the output file as the parameter `writable`. The LLVM IR is abstract, and its textual form is not modelled.
- FormatText.HexToAnsi requires `HexToAnsiDefined`: six hexadecimal digits. `std::stoi` leniency on other text is not modelled. The only caller passes a regular-expression match, which always has that form.
- The `std::regex` engines of `expandInterpolation` and `replaceHexColors` are replaced by explicit scanners. These scanners accept exactly the patterns' languages.
- LexerShort.TokenAt: the reported column depends on the order in which the compiler evaluates two arguments (NexusCompiler/src/Tokenizing/Lexer.cpp:29-31), and C++ leaves that order unspecified. The flag `movedFirst` selects the order and is not fixed.
- ParserV2.ParseFrom returns `None` where the parser's loop never exits. That happens on a list with no progress, such as an empty one or one of `TOK_EOF` only.
- ParserV2.Parser.Parse keeps the guard as written; the intended loop is modelled by the function ParserV2.ParseFromIntended only.
- V1DeclPrinter.ProgramRoundTrip covers programs whose expressions are one-token atoms (identifiers and the literals `parsePrimary` accepts) and whose classes list their fields before their methods, because the tree keeps fields and methods in two lists. Nested operators are covered by the V1Facts fold lemmas instead.
- V1Printer.ExprStmtRoundTrip: proved only for trees whose expressions are one-token atoms (identifiers and the literals `parsePrimary` accepts); compound expressions (operators, unary minus, calls, `new`, member access) are not written out, because the statement printer emits one token per expression; the operator levels are covered instead by the V1Facts fold lemmas (LoopFoldsLeft, LoopReadsRounds, UnaryMinus, MinusRun).
- V1Printer.WhileRoundTrip: proved only for trees whose expressions are one-token atoms (identifiers and the literals `parsePrimary` accepts); compound expressions (operators, unary minus, calls, `new`, member access) are not written out, because the statement printer emits one token per expression; the operator levels are covered instead by the V1Facts fold lemmas (LoopFoldsLeft, LoopReadsRounds, UnaryMinus, MinusRun).
- V1Printer.BlockRoundTrip: proved only for trees whose expressions are one-token atoms (identifiers and the literals `parsePrimary` accepts); compound expressions (operators, unary minus, calls, `new`, member access) are not written out, because the statement printer emits one token per expression; the operator levels are covered instead by the V1Facts fold lemmas (LoopFoldsLeft, LoopReadsRounds, UnaryMinus, MinusRun).
- V1Printer.StmtsRoundTrip: proved only for trees whose expressions are one-token atoms (identifiers and the literals `parsePrimary` accepts); compound expressions (operators, unary minus, calls, `new`, member access) are not written out, because the statement printer emits one token per expression; the operator levels are covered instead by the V1Facts fold lemmas (LoopFoldsLeft, LoopReadsRounds, UnaryMinus, MinusRun).
- V1Printer.StmtsWhole: proved only for trees whose expressions are one-token atoms (identifiers and the literals `parsePrimary` accepts); compound expressions (operators, unary minus, calls, `new`, member access) are not written out, because the statement printer emits one token per expression; the operator levels are covered instead by the V1Facts fold lemmas (LoopFoldsLeft, LoopReadsRounds, UnaryMinus, MinusRun).
- V1Printer.StmtRoundTrip: proved only for trees whose expressions are one-token atoms (identifiers and the literals `parsePrimary` accepts); compound expressions (operators, unary minus, calls, `new`, member access) are not written out, because the statement printer emits one token per expression; the operator levels are covered instead by the V1Facts fold lemmas (LoopFoldsLeft, LoopReadsRounds, UnaryMinus, MinusRun).
- V1Printer.MethodTailRoundTrip: proved only for trees whose expressions are one-token atoms (identifiers and the literals `parsePrimary` accepts); compound expressions (operators, unary minus, calls, `new`, member access) are not written out, because the statement printer emits one token per expression; the operator levels are covered instead by the V1Facts fold lemmas (LoopFoldsLeft, LoopReadsRounds, UnaryMinus, MinusRun).
- V1Printer.MethodDeclRoundTrip: proved only for trees whose expressions are one-token atoms (identifiers and the literals `parsePrimary` accepts); compound expressions (operators, unary minus, calls, `new`, member access) are not written out, because the statement printer emits one token per expression; the operator levels are covered instead by the V1Facts fold lemmas (LoopFoldsLeft, LoopReadsRounds, UnaryMinus, MinusRun).
- V1Printer.VarDeclRoundTrip: proved only for trees whose expressions are one-token atoms (identifiers and the literals `parsePrimary` accepts); compound expressions (operators, unary minus, calls, `new`, member access) are not written out, because the statement printer emits one token per expression; the operator levels are covered instead by the V1Facts fold lemmas (LoopFoldsLeft, LoopReadsRounds, UnaryMinus, MinusRun).
- V1Printer.FieldsRoundTrip: proved only for trees whose expressions are one-token atoms (identifiers and the literals `parsePrimary` accepts); compound expressions (operators, unary minus, calls, `new`, member access) are not written out, because the statement printer emits one token per expression; the operator levels are covered instead by the V1Facts fold lemmas (LoopFoldsLeft, LoopReadsRounds, UnaryMinus, MinusRun).
- V1Printer.MethodsRoundTrip: proved only for trees whose expressions are one-token atoms (identifiers and the literals `parsePrimary` accepts); compound expressions (operators, unary minus, calls, `new`, member access) are not written out, because the statement printer emits one token per expression; the operator levels are covered instead by the V1Facts fold lemmas (LoopFoldsLeft, LoopReadsRounds, UnaryMinus, MinusRun).
- V1DeclPrinter.ClassRoundTrip: proved only for declarations whose expressions are one-token atoms and whose classes list fields before methods (the tree keeps them in two lists); compound expressions (operators, unary minus, calls, `new`, member access) are not written out, because the statement printer emits one token per expression; the operator levels are covered instead by the V1Facts fold lemmas (LoopFoldsLeft, LoopReadsRounds, UnaryMinus, MinusRun).
- V1DeclPrinter.DeclarationRoundTrip: proved only for declarations whose expressions are one-token atoms and whose classes list fields before methods (the tree keeps them in two lists); compound expressions (operators, unary minus, calls, `new`, member access) are not written out, because the statement printer emits one token per expression; the operator levels are covered instead by the V1Facts fold lemmas (LoopFoldsLeft, LoopReadsRounds, UnaryMinus, MinusRun).
- V1DeclPrinter.DeclsRoundTrip: proved only for declarations whose expressions are one-token atoms and whose classes list fields before methods (the tree keeps them in two lists); compound expressions (operators, unary minus, calls, `new`, member access) are not written out, because the statement printer emits one token per expression; the operator levels are covered instead by the V1Facts fold lemmas (LoopFoldsLeft, LoopReadsRounds, UnaryMinus, MinusRun).
- V1DeclPrinter.ProgramLoop: proved only for declarations whose expressions are one-token atoms and whose classes list fields before methods (the tree keeps them in two lists); compound expressions (operators, unary minus, calls, `new`, member access) are not written out, because the statement printer emits one token per expression; the operator levels are covered instead by the V1Facts fold lemmas (LoopFoldsLeft, LoopReadsRounds, UnaryMinus, MinusRun).
- RecoveringParser.ReturnOrDeclRoundTrip: proved only for simple statements over one-token atoms (`return ;`, `return a ;`, `T x = a ;`, `x ++ ;`, `x = a ;`, `a ;`, with `a` an identifier or an integer or string literal); statements whose expressions are calls or chained assignments (`print(x);`, `return f(y);`, `x = g(1);`, `a = b = 1;`) are not written out, because the printer emits only these token shapes; assignment chains are stated instead by RecoveringParser.AssignmentRightAssociative.
- RecoveringParser.ExprStmtRoundTrip: proved only for simple statements over one-token atoms (`return ;`, `return a ;`, `T x = a ;`, `x ++ ;`, `x = a ;`, `a ;`, with `a` an identifier or an integer or string literal); statements whose expressions are calls or chained assignments (`print(x);`, `return f(y);`, `x = g(1);`, `a = b = 1;`) are not written out, because the printer emits only these token shapes; assignment chains are stated instead by RecoveringParser.AssignmentRightAssociative.
- RecoveringParser.StmtRoundTrip: proved only for simple statements over one-token atoms (`return ;`, `return a ;`, `T x = a ;`, `x ++ ;`, `x = a ;`, `a ;`, with `a` an identifier or an integer or string literal); statements whose expressions are calls or chained assignments (`print(x);`, `return f(y);`, `x = g(1);`, `a = b = 1;`) are not written out, because the printer emits only these token shapes; assignment chains are stated instead by RecoveringParser.AssignmentRightAssociative.
- RecoveringParser.StmtsRoundTrip: proved only for simple statements over one-token atoms (`return ;`, `return a ;`, `T x = a ;`, `x ++ ;`, `x = a ;`, `a ;`, with `a` an identifier or an integer or string literal); statements whose expressions are calls or chained assignments (`print(x);`, `return f(y);`, `x = g(1);`, `a = b = 1;`) are not written out, because the printer emits only these token shapes; assignment chains are stated instead by RecoveringParser.AssignmentRightAssociative.
- RecoveringParser.BlockRoundTrip: proved only for simple statements over one-token atoms (`return ;`, `return a ;`, `T x = a ;`, `x ++ ;`, `x = a ;`, `a ;`, with `a` an identifier or an integer or string literal); statements whose expressions are calls or chained assignments (`print(x);`, `return f(y);`, `x = g(1);`, `a = b = 1;`) are not written out, because the printer emits only these token shapes; assignment chains are stated instead by RecoveringParser.AssignmentRightAssociative.
- RecoveringParser.FunctionRoundTrip: proved only for simple statements over one-token atoms (`return ;`, `return a ;`, `T x = a ;`, `x ++ ;`, `x = a ;`, `a ;`, with `a` an identifier or an integer or string literal); statements whose expressions are calls or chained assignments (`print(x);`, `return f(y);`, `x = g(1);`, `a = b = 1;`) are not written out, because the printer emits only these token shapes; assignment chains are stated instead by RecoveringParser.AssignmentRightAssociative.
- RecoveringParser.FunctionsRoundTrip: proved only for simple statements over one-token atoms (`return ;`, `return a ;`, `T x = a ;`, `x ++ ;`, `x = a ;`, `a ;`, with `a` an identifier or an integer or string literal); statements whose expressions are calls or chained assignments (`print(x);`, `return f(y);`, `x = g(1);`, `a = b = 1;`) are not written out, because the printer emits only these token shapes; assignment chains are stated instead by RecoveringParser.AssignmentRightAssociative.
- RecoveringParser.ProgramRoundTrip: proved only for simple statements over one-token atoms (`return ;`, `return a ;`, `T x = a ;`, `x ++ ;`, `x = a ;`, `a ;`, with `a` an identifier or an integer or string literal); statements whose expressions are calls or chained assignments (`print(x);`, `return f(y);`, `x = g(1);`, `a = b = 1;`) are not written out, because the printer emits only these token shapes; assignment chains are stated instead by RecoveringParser.AssignmentRightAssociative.
- V1Grammar.IsAtEndAsWritten and V1Grammar.PeekAsWritten take a `fuel` bound on nested calls, because the source's mutual recursion does not terminate.
- TokenKinds.GetKindFromSpelling and TokKinds.GetKindFromSpelling: their own `ensures` is one-directional, stating only the category of a found kind. The lookup lemmas beside them state the if-and-only-if.
- In the language server, JavaScript strings are sequences of UTF-16 code units and are modelled as `char` sequences. `positionAt` is modelled as offsets.
- The server's connection, document manager, and completion and completion-resolve handlers (LSP/server.js:14-178 and 400-405) are left out. The document lookup is an `Option`.

## Findings

| source | as written | input that shows it | evidently intended | confidence | as-written member | corrected member |
|---|---|---|---|---|---|---|
| NexusCompilerV2/src/Lexer/Lexer.cpp:94-103 | after `next()` consumes the `+`, the test for a second `+` uses `peeknext()`, the character two places after the first `+` | `x++;` lexes to only `x` and `;`: both `+` characters yield no token | test `peek()`, so that `++` is one `TOK_INCREMENT` | high; not executed | LexerV2.PlusAsWritten, LexerV2.IncrementLost | LexerV2.PlusIntended, LexerV2.IncrementIntended |
| NexusCompiler/src/Parser/Parser.cpp:223-230 | `parseExpression` builds the `Assignment` node, discards it and calls `parseAssignment` at the token after the value | `x = 1;` is rejected with "Expected expression, got TOK_SEMI" | return the `Assignment` node | high; not executed | RecoveringParser.AssignmentStatementRejected | RecoveringParser.AssignmentStatementIntended |
| NexusCompilerV1/src/Parsing/Parser.cpp:7-41 | `isAtEnd` calls `peek`, which calls `isAtEnd` again at the same position inside the list | any token list and any position before its end: the recursion never returns | `peek` reads the current token and `isAtEnd` tests it for `eof` | high; not executed | V1Grammar.AsWrittenNeverAnswers | V1Grammar.Peek |
| NexusCompilerV2/src/Parser/Parser.cpp:96 | `parse` loops `while (this->isAtEnd())`, so it runs only once the stream is exhausted | any stream of function headers followed by `TOK_EOF`, such as `f ( ) TOK_EOF`: the result is the empty program | loop `while (!this->isAtEnd())`, so that every header is parsed and pushed | high; not executed | ParserV2.AsWrittenDropsHeaders, ParserV2.NotAtEndGivesEmpty | ParserV2.ParseFromIntended, ParserV2.HeadersRoundTrip |
