# scheme-oxide front end, modelled in Dafny

This project models the front end of the scheme-oxide interpreter in three parts.

1. **The scanner** (`src/parser/tokenizer.rs`). The scanner compiles one anchored regular expression. Its alternatives are tried in this order: number, symbol, good string, block, whitespace, bad-eof string, clipped, boolean, dot, mark. `gen_token` takes the first alternative that matches. It then advances the input to the end of the token, which for numbers, symbols, booleans and the dot stops before the delimiter the expression looked ahead at. `next` skips whitespace, stops at the end of input, and reports `UnexpectedEndOfFile` or `UnknownToken`. The model has three modules:
   - `Lexical` states the grammar as character classes and languages, and states `LeftmostFirst`, which says which capture leftmost-first alternation yields.
   - `Regex` computes that capture by hand and proves that it meets `LeftmostFirst`.
   - `Tokenizer` has the pure step functions `Scan`, `Step` and `NextOf`. It also has a class `Tokenizer`, whose `input` field the methods `GenToken` and `Next` reassign in place, proved equal to those functions.
2. **The syntax tree** (`src/ast.rs`). The module `Ast` covers:
   - core, temporary and user-defined symbols, and their names;
   - the temporary counter, as a class;
   - proper and improper lists, and the list builder, as a class over a sequence of nodes;
   - node constructors, downcasts and kind names;
   - `to_datum`, as a recursive method with a loop that interns symbol names in a symbol table as it goes. It is proved equal to the function `Reify`.
3. **Runtime values** (`src/types.rs`). The module `Types` covers:
   - `SchemeType`, its casts and its `From<bool>` and `From<usize>` conversions;
   - pair chains, which are what `to_datum` builds;
   - `new_symbol`, as a method on a class that holds the interning map.

`Wrappers` holds `Option` and `Result`.

## Model

| member | source | states |
|---|---|---|
| Regex.CapturesAreLeftmostFirst | src/parser/tokenizer.rs:46-84 | The computed capture is what the anchored expression yields. The first matching alternative, in source order, wins. The delimited alternatives have exactly one span, whitespace takes the longest run, and no match gives `None`. |
| Regex.LeftmostFirstNumberOrSymbol | src/parser/tokenizer.rs:78-80 | When a number or symbol matches, the capture is that number or symbol (the first two alternatives). |
| Regex.LeftmostFirstStringBlockOrBlank | src/parser/tokenizer.rs:78-80 | When neither a number nor a symbol matches, a good string, a block or whitespace wins, in that order. |
| Regex.LeftmostFirstRest | src/parser/tokenizer.rs:78-80 | Otherwise bad-eof string, clipped, boolean, dot and mark are tried in order, and no match gives `None`. |
| Regex.Captures | src/parser/tokenizer.rs:138-145 | A capture's group ends after the first character of the input and lies inside the whole match, which lies inside the input. A group can be empty: the body of `""` is. |
| Regex.CapturedDelimiter | src/parser/tokenizer.rs:50-71 | A number, symbol, boolean or dot group ends where a delimiter starts. The whole match goes past that point unless the input ends there. |
| Regex.NumberEndMatches | src/parser/tokenizer.rs:65 | `(?:\+\|-)?[0-9]+` followed by a delimiter matches at exactly one end, and that end is the one computed. |
| Regex.SymbolEndMatches | src/parser/tokenizer.rs:52-59 | A normal or peculiar identifier followed by a delimiter matches at exactly one end, and that end is the one computed. |
| Regex.SymbolAltIsSymbolEnd | src/parser/tokenizer.rs:52-59 | Any end at which the symbol alternative matches is the computed end. |
| Regex.SymbolEndIsAlt | src/parser/tokenizer.rs:52-59 | The computed symbol end is an end at which the symbol alternative matches. |
| Regex.GoodStringEndMatches | src/parser/tokenizer.rs:61-62 | A quoted string body matches at exactly one end (just past the closing quote), and that end is the one computed. |
| Regex.WhitespaceEndMatches | src/parser/tokenizer.rs:47-48 | The whitespace alternative matches iff the computed greedy run is non-empty. That run is whitespace, and no whitespace match is longer. |
| Regex.BadEofStringMatches | src/parser/tokenizer.rs:63 | The computed test holds iff the input is a quote, a string body, an optional lone backslash and then the end of input. |
| Regex.DelimiterEndMatches | src/parser/tokenizer.rs:47-50 | The delimiter at a position matches exactly up to the computed end: one space or bracket or quote, or a comment to the end of its line, or nothing at the end of input. |
| Regex.SpanEnd | src/parser/tokenizer.rs:54-56 | The longest run of one character class: every character in it is in the class, and the next one is not. |
| Regex.SpanEndAt | src/parser/tokenizer.rs:54-56 | A run followed by a character outside the class is the longest run. |
| Regex.SpanEndCovers | src/parser/tokenizer.rs:54-56 | No run reaches past the longest run. |
| Regex.BodyEnd | src/parser/tokenizer.rs:61 | The longest string body ends where neither a plain character nor an escape follows. |
| Regex.BodyEndIsBody | src/parser/tokenizer.rs:61 | The longest string body is a string body. |
| Regex.BodyPrefix | src/parser/tokenizer.rs:61 | Any string body starting at a position ends on the boundary of the longest one. |
| Regex.WsEnd | src/parser/tokenizer.rs:47-48 | The greedy whitespace run ends before a character that is neither a space nor `;`. |
| Regex.WsEndIsWhitespace | src/parser/tokenizer.rs:47-48 | A non-empty greedy run is whitespace text. |
| Regex.WsEndCoversComments | src/parser/tokenizer.rs:47 | A comment that starts inside the greedy run ends inside it. |
| Regex.WhitespaceTextStarts | src/parser/tokenizer.rs:47-48 | Whitespace text starts with a space character or `;`. |
| Regex.WsBound | src/parser/tokenizer.rs:48 | No whitespace text that starts inside the greedy run reaches past it. |
| Regex.NumberEnd | src/parser/tokenizer.rs:65 | A number group is non-empty and followed by a delimiter. |
| Regex.SymbolEnd | src/parser/tokenizer.rs:59 | A symbol group is non-empty and followed by a delimiter. |
| Regex.GoodStringEnd | src/parser/tokenizer.rs:62 | A good string spans at least the two quotes. |
| Regex.WhitespaceEnd | src/parser/tokenizer.rs:79 | A whitespace match is non-empty. |
| Regex.IsBadEofString | src/parser/tokenizer.rs:63 | Only non-empty input can be a cut-off string. |
| Regex.DelimiterEnd | src/parser/tokenizer.rs:50 | The delimiter's match stays inside the input and consumes at least one character unless at the end of input. |
| Tokenizer.TokenOf | src/parser/tokenizer.rs:153-191 | Each token-producing group gives its own kind of token: a string, block, boolean, symbol, number, dot or mark exactly for its group. A string, symbol or number carries the group's text. |
| Tokenizer.CanIgnore | src/parser/tokenizer.rs:98-104 | Only whitespace can be ignored. |
| Tokenizer.Scan | src/parser/tokenizer.rs:133-197 | A step stays within the input. `EndOfFile` occurs exactly on empty input, and every other token consumes at least one character. |
| Tokenizer.Step | src/parser/tokenizer.rs:133-197 | An error leaves the input unchanged, `EndOfFile` leaves the empty input unchanged, and every other token leaves a strictly shorter suffix. |
| Tokenizer.Tokenizer.GenToken | src/parser/tokenizer.rs:133-197 | The in-place step returns `Step`'s result and leaves `Step`'s remaining input in `input`. |
| Tokenizer.Tokenizer.Next | src/parser/tokenizer.rs:203-223 | The skip loop terminates. It returns `NextOf`'s item and leaves `NextOf`'s remaining input in `input`. |
| Tokenizer.Tokenizer.constructor | src/parser/tokenizer.rs:129-131 | A new scanner holds the whole input. |
| Tokenizer.NextOf | src/parser/tokenizer.rs:203-223 | `next` stops without a token only with no input left, and a token it yields strictly shortens the input. `NextOfLeavesSuffix`, `ErrorIsSticky`, `BlankInputEndsStream` and `NextOfSkipsWhitespace` are its partners. |
| Tokenizer.NextOfLeavesSuffix | src/parser/tokenizer.rs:203-223 | `next` leaves a suffix of its input. |
| Tokenizer.ErrorIsSticky | src/parser/tokenizer.rs:138-151 | After an error the input is where the failing step found it, so the next `next` reports the same error again. |
| Tokenizer.ScanFollowsGrammar | src/parser/tokenizer.rs:133-197 | A token is what the grammar reads over exactly the consumed text. Whitespace takes the longest blank run. `UnexpectedEndOfFile` means a cut-off string, or `..` or `#` at the end. `UnknownToken` happens iff no alternative matches non-empty input. |
| Tokenizer.DelimiterNotConsumed | src/parser/tokenizer.rs:164-182 | A number, symbol, boolean or dot stops at its delimiter. The whole match went further, and the input is not advanced past the delimiter. |
| Tokenizer.SignedNumberIsNumber | src/parser/tokenizer.rs:65 | `123`, `+123` and `-123` before a delimiter are numbers spelled with their sign. |
| Tokenizer.LoneSignIsSymbol | src/parser/tokenizer.rs:58-59 | A lone `+` or `-` before a delimiter is a symbol. |
| Tokenizer.EllipsisIsSymbol | src/parser/tokenizer.rs:58-59 | `...` before a delimiter is a symbol. |
| Tokenizer.ClippedAtEndOfInput | src/parser/tokenizer.rs:76 | `..` or a lone `#` at the end of input gives `UnexpectedEndOfFile`. |
| Tokenizer.SymbolIsRawSpelling | src/parser/tokenizer.rs:174-176 | An identifier before a delimiter is one symbol token, spelled as written. |
| Tokenizer.ScanNumber | src/parser/tokenizer.rs:177-179 | A matching number becomes a `Number` token that ends at its group. |
| Tokenizer.ScanSymbol | src/parser/tokenizer.rs:174-176 | A matching symbol, where no number matches, becomes a `Symbol` token that ends at its group. |
| Tokenizer.StringIsRawBody | src/parser/tokenizer.rs:153-154 | A terminated string yields its body with the escapes left as written, and consumes both quotes. |
| Tokenizer.ScanGoodString | src/parser/tokenizer.rs:153-154 | A good string becomes the text between its quotes. |
| Tokenizer.QuotedShape | src/parser/tokenizer.rs:62 | A quoted body sits between its quotes. |
| Tokenizer.UnterminatedStringAtEof | src/parser/tokenizer.rs:149-151 | A string cut off by the end of input, with or without a final lone backslash, gives `UnexpectedEndOfFile`. |
| Tokenizer.NewlineInStringIsUnknown | src/parser/tokenizer.rs:61-63 | A raw newline inside a string matches no alternative, so it gives `UnknownToken`. |
| Tokenizer.BooleanToken | src/parser/tokenizer.rs:164-173 | `#t` and `#f` before a delimiter are `Bool(true)` and `Bool(false)`. |
| Tokenizer.UnknownHashToken | src/parser/tokenizer.rs:138-143 | `#` followed by anything but a delimited `t` or `f` (for example `#x`) gives `UnknownToken`. |
| Tokenizer.BlockAndQuote | src/parser/tokenizer.rs:155-188 | `(`, `)` and `'` are `Block(Start)`, `Block(End)` and `Mark(Quote)` whatever follows them. |
| Tokenizer.NeitherNumberNorSymbol | src/parser/tokenizer.rs:52-65 | No number or symbol starts with a character that begins neither. |
| Tokenizer.NotBlank | src/parser/tokenizer.rs:47-48 | No whitespace starts with a character that is neither a space nor `;`. |
| Tokenizer.BlankInputEndsStream | src/parser/tokenizer.rs:205-220 | Empty input, or input made only of whitespace and comments, makes `next` return `None` with nothing left. |
| Tokenizer.NextOfSkipsWhitespace | src/parser/tokenizer.rs:205-216 | `next` skips the longest run of whitespace and comments at the start of the input: it yields what it yields on the rest. |
| Tokenizer.NextOfToken | src/parser/tokenizer.rs:218-222 | A scanned public token is what `next` yields, leaving the rest of the input. |
| Ast.CoreName | src/ast.rs:46-61 | Every core name is spelled as an ordinary identifier. |
| Ast.CoreNameInjective | src/ast.rs:46-61 | Different core symbols have different names. |
| Ast.Decimal | src/ast.rs:91 | The decimal spelling is non-empty, all digits, with no leading zero. |
| Ast.ParseDecimalOfDecimal | src/ast.rs:91 | Reading the decimal spelling gives the number back. |
| Ast.DecimalInjective | src/ast.rs:91 | Different numbers have different decimal spellings. |
| Ast.DigitChar | src/ast.rs:91 | A digit value below ten is spelled as a digit. |
| Ast.DigitValue | src/ast.rs:91 | A digit's value is below ten. |
| Ast.NewSymbol | src/ast.rs:76-78 | A user symbol is named exactly as spelled. |
| Ast.FromCore | src/ast.rs:97-101 | A core symbol as an AST symbol is named by its core name. |
| Ast.TempNameInjective | src/ast.rs:88-94 | Temporaries with different ids have different names. |
| Ast.SymbolName | src/ast.rs:88-94 | A user symbol is named by its spelling and a core symbol by its core name. A temporary's name is `$temp$id` followed by digits, and is an ordinary identifier. `TempNameInjective` and `TempDiffersFromSameNamedUserSymbol` are its partners. |
| Ast.PrefixedDigitsAreIdentifier | src/ast.rs:91 | `$temp$id` followed by digits is an ordinary identifier. |
| Ast.TempNameScansAsSymbol | src/ast.rs:91 | The scanner reads a temporary's name as one symbol with that name. |
| Ast.TempDiffersFromSameNamedUserSymbol | src/ast.rs:65-94 | A temporary and the user symbol spelled like it have the same name but are different symbols. |
| Ast.TempCounter.GenTemp | src/ast.rs:80-86 | The id is the counter's old value, and the counter steps on modulo 2^64. Until it wraps, each id is new and above every earlier one. |
| Ast.TempCounter.constructor | src/ast.rs:81 | The counter starts at zero with nothing issued. |
| Ast.IsProperListType | src/ast.rs:110-112 | A list type is proper iff it is `Proper`. |
| Ast.IsImproperListType | src/ast.rs:114-120 | A list type is improper iff it ends in some leaf. |
| Ast.IsProperList | src/ast.rs:158-160 | A list is proper iff it ends in the empty list. |
| Ast.IsImproperList | src/ast.rs:166-168 | A list is improper iff it is not proper. |
| Ast.AsNodes | src/ast.rs:170-172 | `as_nodes` gives all the nodes: together with the list type they make up the list. |
| Ast.IntoNode | src/ast.rs:122-127 | A proper list type becomes the empty list, and an improper one becomes its leaf. |
| Ast.Empty | src/ast.rs:144-149 | `none` is the empty list. |
| Ast.One | src/ast.rs:151-156 | `one` is a proper list holding just the node. |
| Ast.FromNodes | src/ast.rs:179-186 | A vector becomes a proper list of exactly its nodes. |
| Ast.IsEmptyList | src/ast.rs:162-164 | A list is empty iff it is proper and has no nodes. |
| Ast.IntoInner | src/ast.rs:174-176 | `into_inner` gives the nodes and the tail as a node. |
| Ast.BuiltWithTail | src/ast.rs:213-226 | Building fails iff the builder is empty and the tail is an improper list. A list tail's nodes are appended and its list type is kept. A leaf tail makes the list improper with that leaf. |
| Ast.BuildWithTailRoundTrip | src/ast.rs:213-226 | Building a list's nodes on the tail from `into_inner` gives the list back. |
| Ast.BuildWithProperTailAppends | src/ast.rs:213-226 | Building on a proper list tail appends its nodes and keeps the result proper. |
| Ast.BuildWithTailSplices | src/ast.rs:213-226 | A list built on a tail and then used as the tail of more nodes is the list built from all the nodes on that tail. |
| Ast.AstListBuilder.constructor | src/ast.rs:193-195 | A new builder holds no nodes. |
| Ast.AstListBuilder.Push | src/ast.rs:197-199 | The node is appended to the pushed nodes. |
| Ast.AstListBuilder.BuildWithType | src/ast.rs:201-207 | The list holds the pushed nodes and ends in the given list type. |
| Ast.AstListBuilder.Build | src/ast.rs:209-211 | The list is proper and holds exactly the pushed nodes, in push order. |
| Ast.AstListBuilder.BuildWithTail | src/ast.rs:213-226 | The result is `BuiltWithTail` of the pushed nodes and the tail. |
| Ast.FromNumber | src/ast.rs:251-253 | The node is a number with that value. |
| Ast.FromString | src/ast.rs:255-257 | The node is a string with that text. |
| Ast.FromBool | src/ast.rs:259-261 | The node is a boolean with that truth value. |
| Ast.FromSymbol | src/ast.rs:361-365 | `into_symbol` gives the symbol back. |
| Ast.FromCoreSymbol | src/ast.rs:354-359 | `into_symbol` gives the core symbol back. |
| Ast.FromList | src/ast.rs:367-371 | `into_list` gives the list back. |
| Ast.FromNodeSeq | src/ast.rs:373-378 | `into_proper_list` gives the nodes back. |
| Ast.AsList | src/ast.rs:281-287 | Gives the list iff the node is a list. |
| Ast.AsProperList | src/ast.rs:289-293 | Gives the nodes iff the node is a proper list. |
| Ast.AsSymbol | src/ast.rs:295-301 | Gives the symbol iff the node is a symbol. |
| Ast.IntoSymbol | src/ast.rs:303-309 | Gives the symbol iff the node is a symbol, and otherwise gives back the node itself. |
| Ast.IntoList | src/ast.rs:311-317 | Gives the list iff the node is a list, and otherwise gives back the node itself. |
| Ast.IntoProperList | src/ast.rs:319-327 | Gives the nodes iff the node is a proper list, and otherwise (an improper list included) gives back the node itself. |
| Ast.NodeIsImproperList | src/ast.rs:329-335 | Holds iff the node is a list that is not proper. |
| Ast.KindName | src/ast.rs:337-351 | "improper list", "proper list" and "symbol" name exactly the nodes of those shapes. |
| Ast.NamesOfSeq | src/ast.rs:271-273 | The names of a sequence include the names of each element. |
| Ast.LeafDatum | src/ast.rs:263-279 | A number and a string keep their value, a symbol becomes the object interned under its name, and a boolean becomes the matching singleton. |
| Ast.TailDatum | src/ast.rs:129-134 | A proper tail is the empty list, and an improper tail is its leaf's datum. |
| Ast.Reify | src/ast.rs:263-279 | A list with nodes reifies to a pair, and the empty list to the empty-list object. `ReifyList` reads the whole chain back, and `ToDatum` is proved equal to it. |
| Ast.ReifySeq | src/ast.rs:271-273 | The element data, one per node, in order. |
| Ast.ReifyMono | src/ast.rs:266 | Interning more names does not change the datum of a node whose names are already interned. |
| Ast.ReifySeqMono | src/ast.rs:271-273 | Interning more names does not change the data of nodes whose names are already interned. |
| Ast.ReifyList | src/ast.rs:268-276 | A list reifies to a pair chain of its nodes' data in order. The chain ends in the empty list when the list is proper, and in its tail leaf's datum when it is improper. |
| Ast.TempReifiesLikeUserSymbol | src/ast.rs:266 | A temporary reifies to the same interned object as the user symbol spelled like its name. |
| Ast.LeafToDatum | src/ast.rs:265-277 | A leaf's datum, interning a symbol's name. The table stays valid, keeps its entries and gains exactly the leaf's names. |
| Ast.ToDatum | src/ast.rs:263-279 | The datum is `Reify` of the node under the new table. The table stays valid, keeps its old entries and gains exactly the node's names. |
| Ast.ListToDatum | src/ast.rs:268-276 | The list case of `to_datum`: the loop pushes each node's datum in order, then builds on the tail's datum. The result is `Reify` of the list, and the table gains exactly the list's names. |
| Ast.TailToDatum | src/ast.rs:129-134 | The tail's datum, with the table gaining exactly the tail leaf's names. |
| Types.UsizeMax | src/types.rs:118 | `usize::MAX` is 2^32-1 or 2^64-1. |
| Types.ToNumber | src/types.rs:100-106 | Succeeds exactly on a number and gives its value. |
| Types.ToIndex | src/types.rs:108-123 | Succeeds iff the value is a number with `0 <= n <= usize::MAX`, and then gives `n` unchanged. |
| Types.ToChar | src/types.rs:125-131 | Succeeds exactly on a character and gives it. |
| Types.IntoObject | src/types.rs:133-139 | Succeeds exactly on an object and gives it. |
| Types.IntoString | src/types.rs:141-147 | Succeeds exactly on a string and gives it. |
| Types.ToBool | src/types.rs:149-151 | False iff the value is the false singleton. |
| Types.ToFunction | src/types.rs:153-158 | Succeeds exactly on a function and gives it. |
| Types.FromBool | src/types.rs:179-187 | The conversion is one of the true and false singletons, and `to_bool` gives the boolean back. |
| Types.FromUsize | src/types.rs:189-197 | For an index not above `i64::MAX`, the result is a number, and `to_index` gives the index back. |
| Types.ListOf | src/types.rs:74-84 | No items gives the tail itself. Otherwise the result is a pair whose car is the first item. |
| Types.UnchainListOf | src/types.rs:74-84 | Following the chain's pairs gives back its items in order and its tail. |
| Types.ListOfInjective | src/types.rs:74-84 | Chains of the same length are equal only when their items and tails are. |
| Types.SymbolTable.constructor | src/types.rs:34-36 | The table starts empty and valid. |
| Types.SymbolTable.NewSymbol | src/types.rs:33-51 | A name already interned gets its object back, and nothing changes. A new name gets a fresh symbol object with that name, which becomes the only new entry. The table stays one object per name with distinct allocation numbers. |

## Left out

- The `regex` crate and `lazy_static` (src/parser/tokenizer.rs:20-22, 83-88) are not modelled as an engine. The expression's grammar is stated as predicates, and its matching is computed by hand. `[[:space:]]` and `[[:alpha:]]` are taken as their ASCII classes.
- Offsets are counted in characters, not UTF-8 bytes. This changes no token boundary, since every character the grammar tests is ASCII.
- Tokens borrow slices of the input in the source. Here they carry copies of the text.
- `into_option` and `into_public` are folded into `NextOf` and `Tokenizer.Next`, which take the public token directly.
- `ListFactory` calls runtime functions that are not part of this model. A factory's result is modelled as the pair chain `Types.ListOf`, and pairs are compared structurally.
- `SchemeString` and its `parse` are not part of this model. A runtime string is modelled as the text itself, so the `parse().unwrap()` in `to_datum` and in `new_symbol` is the identity.
- The symbol object `new_symbol` allocates is modelled as an allocation number and a name. Object identity, and the type id from the environment, are not modelled.
- The atomic counter of `gen_temp` and the thread-local map of `new_symbol` are modelled as sequential state, in the classes `TempCounter` and `SymbolTable`. Behaviour under concurrency is not modelled.
- Ast.TempCounter.GenTemp: ids are promised to be new only until the counter wraps, after 2^64 calls, because `fetch_add` wraps around.
- `shrink_to_fit` changes only capacity and is not modelled.
- Types.FromUsize: the panic on an index above `i64::MAX` is a precondition.
- Types.ToIndex: the width of `usize` is a parameter, `Platform`, rather than fixed.
- `build_with_tail` returns `None` in its failure case, as the code does. The tail is not handed back.
- An empty builder with a leaf tail gives an improper list with no nodes. The code accepts this, and so does the model.
- The `From` conversions of `FunctionRef`, `SchemeObject` and `SchemeString` into `SchemeType` (src/types.rs:161-177) are the datatype's constructors.
- src/types/mod.rs, src/interperter/environment.rs and src/main.rs are not part of this model.
