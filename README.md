# SmartBackspace in Dafny

A model of the SmartBackspace Visual Studio add-in. The add-in listens to keypresses in text documents. On a Backspace, if the language indents with spaces and everything between the start of the line and the caret is spaces whose count is a multiple of the indent size, it deletes one whole indent unit and cancels the default one-character deletion. It caches each language's indent settings the first time it reads them.

- `line_scan.dfy`, module `LineScan`: the `IsLineFullOf` scan exactly as written. It walks backwards and stops at index 1, so it decides "every character after the first is `ch`". Beside it is the inclusive scan that its doc comment describes, and lemmas that locate the gap between the two.
- `editor.dfy`, module `Editor`: the host document reduced to what the handler touches. That is the document's language, the current line, the caret, and a forward deletion at an edit point, which models the host's `CharLeft` followed by `Delete`.
- `smart_backspace.dfy`, module `SmartBackspace`: the `IndentOptions` record and the handler's decision as a function (`Decide`). The `Connect` class holds the per-language settings cache as a map field. Its keypress handler mutates the cache, the document and the cancel flag.

The scan's doc comment (SmartBackspace/Connect.cs:87-88) and the handler's comment (SmartBackspace/Connect.cs:76-77) say the line must be full of spaces. The code skips index 0. The model follows the code (`Decide`) and adds the inclusive version separately (`DecideIntended`); see "## Findings".

Strings are modelled the way .NET indexes and counts them: as sequences of UTF-16 code units (`LineScan.CodeUnit`, `LineScan.Text`). A character outside the Basic Multilingual Plane takes two positions, as it does in `string.Length` and `line[i]`. The C# struct `IndentOptions` (SmartBackspace/Connect.cs:135-139) is the datatype `SmartBackspace.IndentOptions`. Its two fields are `insertTabs` and `indentSize`. The constants `BACKSPACE_CHAR_ASCII` (line 39) and `WHITESPACE_CHAR` (line 78) are `SmartBackspace.BackspaceChar` (code 8) and `SmartBackspace.WhitespaceChar` (code 0x20).

## Model

| member | source | states |
|---|---|---|
| `LineScan.IsLineFullOf` | SmartBackspace/Connect.cs:93-103 | returns true exactly when every character at index 1..Length-1 equals `ch`; index 0 is never inspected |
| `LineScan.IsLineFullOfInclusive` | SmartBackspace/Connect.cs:87-88 | the scan the doc comment describes: returns true exactly when every character of the line equals `ch` |
| `LineScan.FullOfIsTailFullOf` | SmartBackspace/Connect.cs:87-103 | soundness in one direction: a line full of `ch` is accepted by the scan |
| `LineScan.ShortLineIsTailFullOf` | SmartBackspace/Connect.cs:96 | any line of length 0 or 1 is accepted, whatever it holds |
| `LineScan.ScanGap` | SmartBackspace/Connect.cs:87-103 | the scan accepts a line not full of `ch` if and only if the line is non-empty, its first character is not `ch` and all later ones are |
| `LineScan.ScanGapWitness` | SmartBackspace/Connect.cs:96 | `"x   "` is accepted as full of spaces although its first character is a letter |
| `Editor.DeleteRange` | SmartBackspace/Connect.cs:81-82 | deleting `count` characters at `at` shortens the line by `count`; characters before `at` stay put, later ones shift left by `count` |
| `Editor.DeleteRangeRestore` | SmartBackspace/Connect.cs:82 | reinserting the removed characters at `at` gives back the original line, so exactly those characters were removed |
| `Editor.Document.LinePrefix` | SmartBackspace/Connect.cs:67-71 | the text from line start to caret has the caret's length and agrees with the line character by character |
| `Editor.Document.Delete` | SmartBackspace/Connect.cs:81-82 | forward deletion at an edit point: the new line is `DeleteRange` of the old one, and a caret after the range shifts left by `count` |
| `SmartBackspace.Decide` | SmartBackspace/Connect.cs:63-79 | an indent deletion happens only with tabs off; it removes `IndentSize` characters, at least one and no more than the prefix holds, and every prefix character after the first is a space |
| `SmartBackspace.DecideIntended` | SmartBackspace/Connect.cs:76-79 | the corrected decision: every character it deletes is a space |
| `SmartBackspace.TabsOrEmptyKeepDefault` | SmartBackspace/Connect.cs:63-74 | with `InsertTabs` set, or an empty prefix, the default backspace runs |
| `SmartBackspace.SpaceRunUnindents` | SmartBackspace/Connect.cs:76-83 | a non-empty all-space prefix whose length is a multiple of `IndentSize` is un-indented by `IndentSize` under both decisions |
| `SmartBackspace.RaggedSpaceRunKeepsDefault` | SmartBackspace/Connect.cs:79 | a prefix whose length is not a multiple of `IndentSize` keeps the default backspace under both decisions |
| `SmartBackspace.NonSpaceKeepsDefault` | SmartBackspace/Connect.cs:79 | a non-space character at index 1 or later keeps the default backspace |
| `SmartBackspace.NonSpaceKeepsDefaultIntended` | SmartBackspace/Connect.cs:87-88 | in the corrected decision, a non-space character at any index keeps the default backspace |
| `SmartBackspace.DecideDiffersOnlyAtFirstChar` | SmartBackspace/Connect.cs:79 | the two decisions differ if and only if tabs are off, the first character is not a space, all later ones are, and the length is a multiple of `IndentSize` |
| `SmartBackspace.DeletesOnlySpacesBelowFirst` | SmartBackspace/Connect.cs:79-82 | when the indent unit is shorter than the prefix, the as-written deletion removes only spaces |
| `SmartBackspace.SurrogatePairKeepsDefault` | SmartBackspace/Connect.cs:96-98 | lengths and indices count UTF-16 code units: U+1F600 followed by three spaces is rejected by the scan at its low surrogate, index 1, so the default backspace runs |
| `SmartBackspace.AsWrittenDeletesLeadingNonSpace` | SmartBackspace/Connect.cs:79-83 | with indent size 4 the add-in deletes all of `"x   "`, letter included, where the corrected decision keeps the default |
| `SmartBackspace.Connect.constructor` | SmartBackspace/Connect.cs:145 | the cache starts empty and no settings have been read |
| `SmartBackspace.Connect.IndentOptionsFor` | SmartBackspace/Connect.cs:47-60 | load on miss: afterwards the language has an entry. A cached entry is returned and nothing changes. A missing one is read once, added and returned. No existing entry is overwritten. `Valid()` keeps each language's settings read at most once. |
| `SmartBackspace.Connect.OnBeforeKeyPress` | SmartBackspace/Connect.cs:37-85 | a non-Backspace key or a null document changes nothing. Otherwise the cached entry for the document's language is kept if present. If it is missing, exactly `hostOptions` is stored and the language is appended to the read log. If `Decide` on the cached settings and the old prefix says un-indent, the caret moves left by `IndentSize`, exactly the `IndentSize` characters before it are deleted and the rest of the line is kept, and the cancel flag is set. Otherwise the line, caret and cancel flag are untouched. |

## Left out

- The add-in lifecycle and event wiring (`OnConnection`, `OnDisconnection`, `OnAddInsUpdate`, `OnStartupComplete`, `OnBeginShutdown`, subscribing to `BeforeKeyPress`): these host callbacks contain no logic.
- Output-window logging: it is I/O only.
- Reading `InsertTabs` and `IndentSize` from the host's `Properties` and parsing them with `bool.Parse`/`int.Parse`. This is a call into the host. The handler takes as a parameter the `IndentOptions` the host would report for the document's language, and uses it only on a cache miss.
- The exceptions `bool.Parse`/`int.Parse` would throw on malformed settings are not modelled, and neither is the divide-by-zero a zero `IndentSize` causes. `Usable` requires `IndentSize > 0` whenever tabs are off.
- Obtaining `ActiveDocument`, the `TextDocument` and `EditPoint` objects. The document is passed in, possibly null, and the line, caret and edit point are plain values. `CharLeft` never crosses the line start here, because the deletion never reaches past the prefix.
- `inStatementCompletion` is ignored by the source and is left out.
- Concurrency, undo/redo and multi-document state: none of these appear in the code.

## Findings

| source | as written | input that shows it | evidently intended | confidence | as-written member | corrected member |
|---|---|---|---|---|---|---|
| SmartBackspace/Connect.cs:96 | the scan's loop bound `i > 0` never inspects index 0, so a line whose only non-space is its first character counts as all spaces | InsertTabs false, IndentSize 4, text before the caret `"x   "`: Backspace deletes all four characters, the letter `x` included | inspect index 0 too (`i >= 0`), so only an all-space prefix is un-indented and a deletion removes spaces only | not executed; high | `SmartBackspace.AsWrittenDeletesLeadingNonSpace` | `SmartBackspace.DecideIntended` |

The handler `Connect.OnBeforeKeyPress` models the code as written, so it uses `Decide`. `DecideDiffersOnlyAtFirstChar` shows that replacing `Decide` with `DecideIntended` changes the outcome only on the inputs this finding describes.
