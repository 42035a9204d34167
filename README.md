# Pokémon map parser, modelled in Dafny

`scripts/parse_pokemon_map.py` reads a TypeScript file that holds one object
literal. The literal maps each Pokémon id, a quoted decimal numeral, to a list
of `['code', 'name']` pairs. The script turns the literal into a Python
dictionary and reports a one-line summary of it. This project models the
script's three functions and proves properties of them.

- `parse_forms_from_text` becomes `FormPattern.Forms`. It finds every match
  of the pair pattern, scanning left to right without overlaps.
- `parse_typescript_map` is modelled in two ways.
  - The first is a pure specification, `MapParser.ParseMap`. It removes block
    comments (`BlockComments.StripComments`), splits the text into lines
    (`PyText.SplitLines`) and folds a one-line step (`MapParser.Step`) over
    the lines, starting from `MapParser.Init`. A final flush
    (`MapParser.Finish`) stores a block that is still open.
  - The second is the loop itself, `MapParser.ParseTypeScriptMap`. It keeps
    the function's three variables and is proved to compute `ParseMap`.
- `summarize` becomes `Summary.Summarize`. It returns the three figures the
  line reports: the entry count, the total number of pairs and the longest
  name.

Supporting modules model the Python behaviour the script relies on:

- `PyText` models `str.isspace`, `strip`, `rstrip(",")` and `splitlines`.
- `KeyPattern` models the key regular expression.
- `PyDict` models a dictionary that keeps its keys in insertion order.

`MapLayout` describes the layout such a file is written in. Each entry sits
either on one line or in a block, one pair per line. For every file in that
layout, the round-trip lemmas prove that the parser returns the dictionary
obtained by assigning each entry in turn.

Some details of the model:

- Lines come from `splitlines`, so they never contain `"\n"`. The key
  pattern's `.` and `$` therefore need no special case.
- The key pattern's value group `.+` must match at least one character. On a
  line whose value is white space only, the match backtracks, and the value
  is the last white-space character (`KeyPattern.MatchKeyBlankValue`).
- The comment pass removes `/*` together with everything up to the first
  `*/` after it. A `/*` with no `*/` after it stays in the text.
- Inside a block, a line that looks like a one-line entry is not read as a
  key line. Its pairs join the open block (`MapLayout.KeyLikeLineInBlock`).
- The test `rest and rest != "["` before scanning a block opener's value
  makes no difference to the result, since neither value holds a pair.
  `MapParser.KeyLineOpensBlock` states the step without that test.

## Model

| member | source | states |
|---|---|---|
| PyText.LStrip | scripts/parse_pokemon_map.py:33 | the result is a suffix of the input; everything removed is white space; the result does not start with white space |
| PyText.RStrip | scripts/parse_pokemon_map.py:33 | the result is a prefix of the input; everything removed is white space; the result does not end with white space |
| PyText.Strip | scripts/parse_pokemon_map.py:33 | the result neither starts nor ends with white space and is no longer than the input |
| PyText.StripSplit | scripts/parse_pokemon_map.py:33 | `strip` keeps a contiguous middle part of its input, with only white space on either side of it |
| PyText.StripIndented | scripts/parse_pokemon_map.py:33 | indentation before a trimmed line is removed and nothing else is |
| PyText.RStripChar | scripts/parse_pokemon_map.py:38 | `rstrip(c)` keeps a prefix, removes only `c` characters, and the kept part does not end with `c` |
| PyText.RStripCharExact | scripts/parse_pokemon_map.py:43 | `rstrip(c)` removes exactly the trailing run of `c` |
| PyText.SplitLines | scripts/parse_pokemon_map.py:32 | no line contains a line boundary; SplitLastLine, SplitAtBreak, SplitAtCrLf and SplitAtCr fix the result on every text, line by line |
| PyText.SplitJoinLines | scripts/parse_pokemon_map.py:32 | splitting the text of newline-terminated lines gives back exactly those lines |
| PyText.SplitLastLine | scripts/parse_pokemon_map.py:32 | a last line with no boundary after it comes out as one line |
| PyText.SplitAtBreak | scripts/parse_pokemon_map.py:32 | any boundary other than `\r` (`\n`, `\x0b`, `\x0c`, `\x1c`-`\x1e`, `\x85`, `\u2028`, `\u2029`) ends the first line and is dropped |
| PyText.SplitAtCrLf | scripts/parse_pokemon_map.py:32 | `\r\n` ends the first line as a single boundary |
| PyText.SplitAtCr | scripts/parse_pokemon_map.py:32 | a `\r` not followed by `\n` ends the first line on its own |
| BlockComments.FindCloser | scripts/parse_pokemon_map.py:26 | the lazy match stops at the first `*/` at or after the given position, or there is none |
| BlockComments.StripComments | scripts/parse_pokemon_map.py:26 | the `re.sub` pass, never longer than its input; NoOpenerUnchanged and NoCloserUnchanged fix it for text without an opener or a closer; OpenerFreePrefixKept and CommentRemoved fix it around each comment, after any text that opens none |
| BlockComments.NoOpenerUnchanged | scripts/parse_pokemon_map.py:26 | text without `/*` is left unchanged by the comment pass |
| BlockComments.NoCloserUnchanged | scripts/parse_pokemon_map.py:26 | text without `*/` is left unchanged: an unterminated comment is kept |
| BlockComments.OpenerFreePrefixKept | scripts/parse_pokemon_map.py:26 | text in which no `/` is followed by `*` is kept as it is, `//` lines and URLs included, and the pass goes on with what follows |
| BlockComments.CommentRemoved | scripts/parse_pokemon_map.py:26 | after text that opens no comment, a comment is removed through its first closer, and the pass continues after it |
| BlockComments.UnclosedOpenerKept | scripts/parse_pokemon_map.py:26 | an opener with no closer after it is kept with everything after it, even when its own `*` is followed by `/` |
| KeyPattern.MatchKey | scripts/parse_pokemon_map.py:14 | `KEY_PATTERN.match`, giving the id and value groups or no match; MatchKeySound, MatchKeyComplete, MatchKeyBlankValue and MatchKeyNeedsQuote characterise it |
| KeyPattern.QuotedId | scripts/parse_pokemon_map.py:14 | the id group is a non-empty numeral between single quotes at the start of the line |
| KeyPattern.MatchKeySound | scripts/parse_pokemon_map.py:14 | every match is a quoted numeral, white space, a colon, white space and a non-empty value that fills the rest of the line |
| KeyPattern.MatchKeyComplete | scripts/parse_pokemon_map.py:14 | every such line whose value starts with a non-space character is matched with that id and that value |
| KeyPattern.MatchKeyBlankValue | scripts/parse_pokemon_map.py:14 | when the value is white space only, the match takes the last white-space character as the value |
| KeyPattern.MatchKeyNeedsQuote | scripts/parse_pokemon_map.py:14 | a line that does not begin with a single quote is never matched |
| FormPattern.Quoted | scripts/parse_pokemon_map.py:15 | a quoted group is the text between two single quotes and holds no quote |
| FormPattern.MatchForm | scripts/parse_pokemon_map.py:15 | FORM_PATTERN at the start of the text; a match consumes at least one character; MatchFormSound and MatchFormComplete characterise it in both directions |
| FormPattern.MatchFormSound | scripts/parse_pokemon_map.py:15 | every pair match is `['code'`, white space, a comma, white space, `'name'`, white space and `]`, and holds no quote inside |
| FormPattern.MatchFormComplete | scripts/parse_pokemon_map.py:15 | every text of that shape is matched with its own pair and leaves exactly the text after it |
| FormPattern.Forms | scripts/parse_pokemon_map.py:18-20 | `findall` of FORM_PATTERN: pairs in order, scanning on from where each match ends; FormsQuoteFree, FormsSkipPrefix, FormsOfItems and FormListRoundTrip characterise it |
| FormPattern.FormsQuoteFree | scripts/parse_pokemon_map.py:18-20 | no code or name found contains a single quote |
| FormPattern.FormsSkipPrefix | scripts/parse_pokemon_map.py:18-20 | text without `[` yields no pair and does not change what follows |
| FormPattern.FormsOfItems | scripts/parse_pokemon_map.py:18-20 | the written items of a list of pairs yield exactly those pairs, in order |
| FormPattern.FormListRoundTrip | scripts/parse_pokemon_map.py:18-20 | a written list of pairs parses back to the same pairs |
| PyDict.Empty | scripts/parse_pokemon_map.py:28 | the empty dictionary has no keys |
| PyDict.Put | scripts/parse_pokemon_map.py:46 | assignment sets the key's value and leaves every other key alone; a new key goes last, and an existing key keeps its place |
| PyDict.Values | scripts/parse_pokemon_map.py:72 | the values come in the order of their keys |
| PyDict.LenCountsKeys | scripts/parse_pokemon_map.py:77 | the length is the number of distinct keys |
| PyDict.Len | scripts/parse_pokemon_map.py:77 | `len(entries)`; LenCountsKeys shows it counts the distinct keys |
| MapParser.Init | scripts/parse_pokemon_map.py:28-30 | the loop starts with no entries, outside a block, and the invariant holds |
| MapParser.KeyText | scripts/parse_pokemon_map.py:38 | the text given to the key pattern contains no newline |
| MapParser.Rest | scripts/parse_pokemon_map.py:43 | the value with trailing commas and surrounding white space removed: no longer than the value and with no white space at either end |
| MapParser.Skipped | scripts/parse_pokemon_map.py:34 | the test for a blank line, a `//` line or the `export` line; a skipped line is empty or starts with `/` or `e` |
| MapParser.Complete | scripts/parse_pokemon_map.py:45 | the three-part test for a value holding a whole list; such a value has at least two characters, opens with `[` and closes with `]` |
| MapParser.Step | scripts/parse_pokemon_map.py:33-63 | one turn of the loop keeps the dictionary well formed; what each branch does is stated by the lemmas below, from SkippedLineChangesNothing to BlockLineAppends |
| MapParser.Run | scripts/parse_pokemon_map.py:32-63 | the loop over a sequence of lines keeps the dictionary well formed; RunAppend splits it, and RunKeepsInv and StepKeepsInv carry the invariant through it |
| MapParser.Finish | scripts/parse_pokemon_map.py:65-66 | outside a block the dictionary is returned as it is; a block still open is stored under its id |
| MapParser.ParseLines | scripts/parse_pokemon_map.py:28-66 | the dictionary built from the lines is well formed; ParsedKeysAreNumerals and LastOccurrenceWins state what it holds |
| MapParser.ParseMap | scripts/parse_pokemon_map.py:23-68 | the whole function on the text of the file gives a well-formed dictionary; FileTextRoundTrip gives its result for files in the usual layout |
| MapParser.ParseTypeScriptMap | scripts/parse_pokemon_map.py:23-68 | the loop computes the dictionary of `ParseMap`: comment pass, `splitlines`, one step per line, then the flush |
| MapParser.RunAppend | scripts/parse_pokemon_map.py:32 | reading two stretches of lines one after the other is reading their concatenation |
| MapParser.StepKeepsInv | scripts/parse_pokemon_map.py:32-63 | each line keeps the invariant: stored and pending ids are numerals, and the buffer is empty outside a block |
| MapParser.ParsedKeysAreNumerals | scripts/parse_pokemon_map.py:42-46 | every key of the result is a non-empty run of decimal digits |
| MapParser.SkippedLineChangesNothing | scripts/parse_pokemon_map.py:34-35 | a blank, `//` or `export` line changes nothing, inside or outside a block |
| MapParser.SkippedLinesChangeNothing | scripts/parse_pokemon_map.py:32-35 | a run of such lines changes nothing |
| MapParser.UnmatchedLineOutside | scripts/parse_pokemon_map.py:37-40 | outside a block, a line the key pattern does not match changes nothing |
| MapParser.UnquotedLineOutside | scripts/parse_pokemon_map.py:37-40 | outside a block, a line not starting with a quote changes nothing |
| MapParser.CompleteKeyLineStored | scripts/parse_pokemon_map.py:42-47 | a key line with a whole list as its value stores the list's pairs under the key and stays outside a block |
| MapParser.KeyLineOpensBlock | scripts/parse_pokemon_map.py:49-55 | any other key line opens a block for its key, holding the pairs found in the value |
| MapParser.CloseLineStoresBlock | scripts/parse_pokemon_map.py:57-61 | inside a block, a line starting with `]` stores the buffer under the block's id and leaves the block |
| MapParser.BlockLineAppends | scripts/parse_pokemon_map.py:63 | inside a block, every other line adds the pairs it holds to the end of the buffer |
| MapParser.LeavesEntryStep | scripts/parse_pokemon_map.py:34-47 | outside a block, a skipped line, an unmatched line or a one-line entry for another id keeps the parser outside and leaves the entry for the id unchanged |
| MapParser.LeavesEntryRun | scripts/parse_pokemon_map.py:32-47 | the same holds for any run of such lines |
| MapParser.BlockBodyRun | scripts/parse_pokemon_map.py:57-63 | inside a block, lines that do not start with `]` keep the block open and the stored entries unchanged |
| MapParser.OtherBlockRun | scripts/parse_pokemon_map.py:36-63 | a whole multi-line entry for another id, read outside a block, ends outside and leaves the entry for the id unchanged |
| MapParser.SegmentsRun | scripts/parse_pokemon_map.py:32-63 | any sequence of lines leaving the entry alone and whole multi-line entries for other ids keeps the parser outside and the entry unchanged |
| MapParser.LastOccurrenceWins | scripts/parse_pokemon_map.py:46 | when an id appears again on a one-line entry, the later list is what the result holds for it, whatever came before, and whatever follows as skipped or unmatched lines, one-line entries for other ids or whole multi-line entries for other ids |
| MapParser.BlockBodyCollects | scripts/parse_pokemon_map.py:57-63 | inside a block, lines not starting with `]` add exactly the pairs of the non-skipped ones, in order, and change nothing else |
| MapParser.OwnBlockRun | scripts/parse_pokemon_map.py:49-61 | a key line opening a block, its lines and its `]` line store the value's pairs followed by the lines' pairs under the key |
| MapParser.LaterBlockWins | scripts/parse_pokemon_map.py:58 | when an id appears again on a multi-line entry, that block's pairs are what the result holds for it, whatever came before and whatever lines or blocks for other ids follow |
| MapLayout.KeyLikeLineInBlock | scripts/parse_pokemon_map.py:36-63 | inside a block, a one-line entry is not read as a key line: its pairs join the block, which stays open |
| MapLayout.FileRoundTrip | scripts/parse_pokemon_map.py:32-66 | a file written one entry per line or block parses to the dictionary with each entry assigned in turn |
| MapLayout.UnclosedBlockFlushed | scripts/parse_pokemon_map.py:65-66 | a file that ends inside a block still gets that block stored |
| MapLayout.FileTextRoundTrip | scripts/parse_pokemon_map.py:23-68 | the same round trip on the file's text, comment pass and `splitlines` included |
| Summary.AllForms | scripts/parse_pokemon_map.py:74 | all pairs of all entries, in the dictionary's order; TotalFormsCountsPairs and LongestNameIsFirstLongest relate it to the report |
| Summary.TotalForms | scripts/parse_pokemon_map.py:72 | the sum of the list lengths; TotalFormsCountsPairs shows it counts the pairs |
| Summary.TotalFormsCountsPairs | scripts/parse_pokemon_map.py:72 | the sum of the list lengths is the number of pairs over all entries |
| Summary.LongestIndex | scripts/parse_pokemon_map.py:73-75 | `max(key=len)` picks a name at least as long as every other, and the first of the longest |
| Summary.Longest | scripts/parse_pokemon_map.py:73-75 | `max(names, default="", key=len)`: `""` for no names, otherwise the name at LongestIndex, the first longest |
| Summary.Summarize | scripts/parse_pokemon_map.py:71-79 | the report holds the number of keys, the number of pairs, and a name that is empty exactly when every name is empty |
| Summary.LongestNameIsFirstLongest | scripts/parse_pokemon_map.py:73-75 | the reported name belongs to some pair, is at least as long as every name, and is longer than every name before it |
| Summary.NoPairsNoName | scripts/parse_pokemon_map.py:73-75 | with no pairs at all the name is the default `""` |
| Summary.SummarizeNewEntry | scripts/parse_pokemon_map.py:71-77 | storing a new id adds one entry and its pairs to the totals |

## Left out

- `main` (scripts/parse_pokemon_map.py:82-127) is not modelled. It handles argument parsing, writing JSON, printing and exit codes, all of which are I/O.
- The file read at line 25 is not modelled, and neither is UTF-8 decoding. The model starts from the decoded text.
- game/_tmp_script.py is not part of this model. It is a scratch script outside the parser.
- KeyPattern.QuotedId, KeyPattern.MatchKey: `\d` is modelled as the ASCII digits only. Python's `\d` on `str` also accepts the other Unicode decimal digits.
- Summary.Summarize: returns the three figures, not the formatted line. The decimal rendering of the numbers and the `repr` quoting of the name are not modelled.
- FormPattern.Forms: each `[code, name]` list is the two-field value `Form`. The lists' mutability does not matter here, because the parser never changes a list after building it.
- MapParser.ParseTypeScriptMap: the dictionary is a value (`PyDict.Dict`), reassigned on each store. Aliasing of the dictionary or of its lists is not modelled, and the parser does not rely on it.
- MapLayout.FileRoundTrip: the round trips cover only the layout of `MapLayout`. In that layout, ids, codes and names avoid quotes, brackets, `*` and line boundaries, and every line is written with fixed indentation. Other inputs are covered by the per-line lemmas of `MapParser`.
