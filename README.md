# php-modifiers in Dafny

A model of the core of `imliam/php-modifiers`. The library lets a static PHP
method find out which unary prefix operators (`!`, `@`, `+`, `-`, `~`) its
caller wrote in front of the call, as in `! @Example::setValue('test')`.
It has three parts, and each is modelled here:

- **The call-site scanner** (`src/CallFinder.php`), in `call_finder.dfy`.
  It takes the tokens of a source file, the line the call was reported on
  and the call's signature (a bare function name or a `[class, method]`
  pair). It walks the tokens with a line cursor and a three-slot window of
  significant tokens, and picks out the name tokens that are real calls of
  the signature. For each of those it follows the brackets to the end of
  the call. If that call reaches the reported line, it walks backward and
  collects the operators in front of it. The result is the duplicate-free
  union over every accepted call. Each loop of the source is a method
  proved equal to a specification function:
  - `RealTokenIndex` to `NextReal`;
  - `ScanCall` to `CallSpan`;
  - `ModifiersBefore` to `CallOperators`;
  - `GetModifiersUsed` to `ModifiersUsed`.

  The properties of the scan are lemmas about those functions.
  `call_finder_example.dfy` works one call of the test suite through the
  whole scan: `! @+-Example::setValue('test')`.
- **The alias normaliser and frame matcher** (`src/Utils.php`), in
  `utils.dfy`.
  - `NormalizeAliases` is the by-reference loop that rewrites or unsets
    each entry of a declared alias list, followed by `array_values`. It is
    proved equal to `Normalized`.
  - `TraceFrameIsListed` compares one stack frame with a normalised list.
- **Frame selection and the query façade** (`src/HasModifiers.php`), in
  `has_modifiers.dfy`.
  - `SelectCallee` is the `getCallInfo` loop. It raises `$found` and clears
    the working list at every frame that matches an alias, and leaves
    `spl_autoload_call` frames off that list. It is proved equal to
    `Selected`.
  - `CallSiteOf` is the guard and signature construction of
    `getSingleCall`.
  - `HasModifier` and `HasModifiers` answer membership and subset questions
    over the result.

The shared PHP built-ins live in the modules `Php` and `Tokens`:
`strtolower`, `substr_count`, `end(explode(...))`, `ltrim`, `empty`,
`array_unique` and `array_merge`, and the token lookup tables of
src/CallFinder.php:10-46.

The external inputs are parameters:
- **The tokenizer's output.** A token is either a bare one-character
  string (`Ch`) or a (kind, text) pair (`Tok`).
- **The stack trace.** It is a `seq<Frame>`, innermost frame first.
- **The declared alias list.** `Option<seq<Value>>` stands for
  `static::$modifierAliases`. `None` means the class declares none.
- **The readable files.** A map from each readable path to the tokens of
  its contents stands for `is_readable`, `file_get_contents` and
  `token_get_all`.

Three behaviours of the code are easy to misread, and the model follows
the code in each:
- **An unterminated call is not rejected.** The forward scan runs while
  `isset($tokens[$offset])` holds (src/CallFinder.php:118) and breaks only
  when the depth drops to 0 or below (src/CallFinder.php:144-147). If the
  tokens run out first, the call spans every remaining token. It is then
  accepted when that reaches the line, because the only rejection is an end
  line before the reported line (src/CallFinder.php:152-156). See
  `CallFinder.UnclosedCallSpansRest`.
- **The class part of a pair alias keeps its namespace.** `ltrim` removes
  only its leading backslashes (src/Utils.php:32). The scanner compares just
  the last `\`-segment of the signature's class (src/CallFinder.php:57-58).
- **The window holds only (kind, text) tokens.** One-character tokens such
  as `(` or `!` are skipped by the outer scan before the window is shifted
  (src/CallFinder.php:67-69, 84).

## Model

| member | source | states |
|---|---|---|
| Php.Lower | src/CallFinder.php:58-59 | `strtolower`: same length, every ASCII capital mapped to its small letter and every other byte kept, no capital left |
| Php.LowerKeepsBackslashes | src/CallFinder.php:57-58 | lower-casing neither creates nor removes a backslash |
| Php.CountNewlines | src/CallFinder.php:74 | `substr_count(s, "\n")` is at most the length, and 0 exactly when there is no line feed |
| Php.CountNewlinesCounts | src/CallFinder.php:74 | `substr_count(s, "\n")` is the number of occurrences of the line feed in `s` |
| Php.LastSegment | src/CallFinder.php:57-58 | `end(explode('\\', s))` is a suffix of `s` without a backslash, and is preceded by a backslash whenever it is shorter than `s` |
| Php.LtrimBackslash | src/Utils.php:32 | `ltrim(s, '\\')` is a suffix of `s` that does not start with a backslash, and only backslashes were removed |
| Php.PhpEmpty | src/HasModifiers.php:99 | definition: `empty()` of an optional string holds for a missing value, "" and "0" |
| Php.Unique | src/CallFinder.php:189 | `array_unique`: no duplicates, the same members, no longer than the input |
| Php.Flatten | src/CallFinder.php:189 | `array_merge(...$lists)` holds exactly the elements of the lists |
| Php.UniqueOfDistinct | src/CallFinder.php:189 | `array_unique` leaves a list without repeats unchanged |
| Php.UniqueOfSingle | src/CallFinder.php:189 | merging a single list without repeats and removing duplicates gives that list back |
| Tokens.NewlinesAppend | src/CallFinder.php:74 | the line feeds of two token runs add up |
| Tokens.NewlinesMonotone | src/CallFinder.php:74-77 | the line cursor never moves back as the scan advances |
| Tokens.NewlinesNone | src/CallFinder.php:123-125 | tokens without line feeds do not move a cursor |
| Tokens.Ignored | src/CallFinder.php:10-18 | definition of `$ignore`: a (kind, text) token of kind close tag, comment, doc comment, inline HTML, open tag, open tag with echo or whitespace. A one-character token is never ignored |
| Tokens.OpensLevel | src/CallFinder.php:20-26 | definition of `$up`: the characters `(`, `[`, `{` and the kinds `T_CURLY_OPEN` and `T_DOLLAR_OPEN_CURLY_BRACES` |
| Tokens.ClosesLevel | src/CallFinder.php:28-32 | definition of `$down`: the characters `)`, `]` and `}` |
| Tokens.IsModifierSymbol | src/CallFinder.php:34-40 | definition of the keys of `$modifiers`: `!`, `@`, `+`, `-` and `~` |
| Tokens.IsModifier | src/CallFinder.php:34-40 | definition: a one-character token whose character is a key of `$modifiers`. A (kind, text) token never is, since its kind is not one of those strings |
| Tokens.InQualifiedName | src/CallFinder.php:42-46 | definition of `$identifier`: (kind, text) tokens of kind `T_DOUBLE_COLON`, `T_STRING` or `T_NS_SEPARATOR` |
| Tokens.Significant | src/CallFinder.php:67-82 | definition: a token the outer loop keeps past its `is_array` test and its `$ignore` test, that is, a (kind, text) token that is not ignored |
| Tokens.LineBreaks | src/CallFinder.php:123-125 | definition: the line feeds a token adds to a cursor, which are those of the text of a (kind, text) token and none for a one-character token |
| CallFinder.TargetOf | src/CallFinder.php:56-63 | a bare signature has no class part. The name is lower-cased. The class part is lower-case and holds no backslash. It is the lower-cased suffix of the declared class that starts at its beginning or right after a backslash, that is, its last `\`-segment |
| CallFinder.NextReal | src/CallFinder.php:192-205 | the first index after `i` whose token is not ignored, with every token in between ignored, or none when all remaining tokens are ignored |
| CallFinder.RealTokenIndex | src/CallFinder.php:192-205 | the loop returns exactly `NextReal` |
| CallFinder.NestingCounts | src/CallFinder.php:113-142 | the depth is 1 + openers − closers, plus 1 inside a string, and a string is open exactly after an odd number of `"` |
| CallFinder.Step | src/CallFinder.php:127-142 | definition: an opener raises the depth by one, a closer lowers it by one, and `"` toggles the string flag, raising the depth when it opens a string and lowering it when it closes one. Any other token changes nothing. `NestingCounts` gives the closed form |
| CallFinder.ScanFrom | src/CallFinder.php:118-150 | the scan from `m` ends between `m` and the end of the tokens |
| CallFinder.ScanFromStops | src/CallFinder.php:118-150 | the scan from `m` passes tokens while the depth stays positive, and stops at the first token after which it is 0 or below, or at the end |
| CallFinder.CallLength | src/CallFinder.php:113-150 | the scan of the arguments never passes more tokens than there are |
| CallFinder.CallLengthStops | src/CallFinder.php:113-150 | the depth stays positive before the last token passed, and drops to 0 or below at it unless the tokens ran out |
| CallFinder.CallLengthUnique | src/CallFinder.php:145-147 | those two conditions determine the scanned length |
| CallFinder.CallSpan | src/CallFinder.php:118-150 | definition: the tokens from just after `(` that the inner `while` passes, up to and including the token that brings the depth to 0 or below, or all remaining tokens. `CallLengthStops` and `UnclosedCallSpansRest` characterise it |
| CallFinder.UnclosedCallSpansRest | src/CallFinder.php:118-156 | a call whose brackets never close spans all remaining tokens and is not rejected for that |
| CallFinder.SpanStep | src/CallFinder.php:118-142 | one more token of the inner scan moves the depth and string state by one step and adds its line feeds |
| CallFinder.ScanCall | src/CallFinder.php:112-150 | the inner cursor ends at the outer cursor plus the line feeds of the call's span, counted from just after `(` |
| CallFinder.QualifierStart | src/CallFinder.php:159-167 | the first backward loop stops at the nearest token before the name that is neither ignored nor part of a qualified name, passing only such tokens |
| CallFinder.OperatorsFrom | src/CallFinder.php:169-184 | the second backward loop collects only the five operator symbols, at most one per token |
| CallFinder.OperatorsFromExact | src/CallFinder.php:169-184 | the second backward loop stops at the first token that is neither ignored nor an operator, or at the start. A character is collected iff an operator token of that character lies in the run it passed, so every operator there is collected and none is invented |
| CallFinder.CallOperators | src/CallFinder.php:158-184 | definition: the operators collected by the second backward loop from where the first one stopped |
| CallFinder.CallOperatorsExact | src/CallFinder.php:158-184 | for a call at `i`: the first loop passes only ignored and qualified-name tokens. A character is reported iff an operator token of that character lies between the start of the qualified name and the first token before it that is neither ignored nor an operator |
| CallFinder.ModifiersBefore | src/CallFinder.php:159-184 | the two backward loops return exactly `CallOperators` |
| CallFinder.SignificantsAreSignificant | src/CallFinder.php:67-84 | the window is filled only from significant (kind, text) tokens |
| CallFinder.ModifiersUsed | src/CallFinder.php:186-189 | the result has no duplicates and holds only the five operator symbols |
| CallFinder.ShapeMatches | src/CallFinder.php:96-109 | definition: for a bare signature, the previous significant token is not `::` or `->`. For a class signature, it is `::`, and the one before it is a name whose lower-case form is the class |
| CallFinder.Accepted | src/CallFinder.php:86-156 | definition: a name token before the cutoff whose lower-case text is the target name, whose next real token is `(`, whose window fits `ShapeMatches`, and whose call ends on or after the line. `AcceptCandidate` is proved to decide exactly this |
| CallFinder.CursorAt | src/CallFinder.php:51-77 | definition: `$cursor` once token `i` has been counted, which is 1 plus the line feeds of the tokens up to and including `i` |
| CallFinder.AcceptedCalls | src/CallFinder.php:52-186 | definition: `$modifiersUsed` after the first `n` tokens, which holds the operator lists of the accepted calls among them in token order. `AcceptedCallsMembers` and `ScanStep` characterise it |
| CallFinder.WindowShape | src/CallFinder.php:96-109 | read off the two window slots, a bare signature needs a previous token that is neither `::` nor `->`, and a class signature needs `::` preceded by a name whose lower-case form is the class |
| CallFinder.AcceptCandidate | src/CallFinder.php:86-186 | for one name token: an operator list comes back exactly when the token is an accepted call, and it is that call's `CallOperators` |
| CallFinder.WindowPush | src/CallFinder.php:84 | pushing a token makes it the newest slot and shifts the two older slots by one |
| CallFinder.ScanStep | src/CallFinder.php:66-89 | each token moves the cursor by its line feeds, enters the window exactly when it is significant, is never accepted when it is not, and adds its operator list to `$modifiersUsed` (line 186) exactly when it is accepted |
| CallFinder.GetModifiersUsed | src/CallFinder.php:48-190 | the outer loop returns exactly `ModifiersUsed`. Its invariant keeps the three window slots equal to the last three significant tokens scanned, newest last |
| CallFinder.CollectMembers | src/CallFinder.php:186 | a list appended one candidate at a time holds exactly the lists of the picked candidates |
| CallFinder.CollectNoneFrom | src/CallFinder.php:186 | candidates that are not picked append nothing |
| CallFinder.CollectOne | src/CallFinder.php:186 | with exactly one picked candidate, the list holds just its operator list |
| CallFinder.CutoffIsFinal | src/CallFinder.php:75-77 | once the cursor passes the line, no later token adds an accepted call, so breaking there loses nothing |
| CallFinder.AcceptedCallsMembers | src/CallFinder.php:186 | `$modifiersUsed` holds exactly the operator lists of the accepted candidates |
| CallFinder.ReportedHasCall | src/CallFinder.php:186-189 | every reported operator stands in front of some accepted call |
| CallFinder.CallIsReported | src/CallFinder.php:186-189 | every operator in front of an accepted call is reported |
| CallFinder.ModifiersUsedMembers | src/CallFinder.php:186-189 | an operator is reported if and only if it stands in front of some accepted call |
| CallFinder.NoAcceptedCallNoModifiers | src/CallFinder.php:189 | with no accepted call, the result is empty |
| CallFinder.AcceptedBeforeCutoff | src/CallFinder.php:74-77 | no name token after the cutoff point is ever accepted |
| CallFinder.LastSignificant | src/CallFinder.php:84 | a non-empty window ends with the last significant token, and everything after that token is insignificant |
| CallFinder.SignificantsEndWith | src/CallFinder.php:84 | a significant token followed only by insignificant ones is the newest window entry |
| CallFinder.QualifiedNameIsNotFunction | src/CallFinder.php:98-101 | a bare signature never matches a name written after `::` or `->` |
| CallFinder.StaticCallShape | src/CallFinder.php:102-109 | an accepted class call has `::` as its previous significant token, and before that a name equal to the class's short name |
| CallFinder.SingleAcceptedCall | src/CallFinder.php:186 | with exactly one accepted call, `$modifiersUsed` is that call's operator list |
| CallFinder.SingleCallReported | src/CallFinder.php:189 | when the accepted calls are one list of distinct operators, `getModifiersUsed` returns exactly that list |
| CallFinderExample.StackedOperatorsTarget | src/CallFinder.php:56-59 | `Tests\Example::setValue` is looked up as class `example`, name `setvalue` |
| CallFinderExample.StackedOperatorsClass | src/CallFinder.php:57-58 | the namespace `Tests` is dropped from `Tests\Example` |
| CallFinderExample.LastSegmentAfter | src/CallFinder.php:57-58 | the part after a backslash that no other backslash follows is the last segment |
| CallFinderExample.StackedOperatorsNames | src/CallFinder.php:58-59 | `Example` and `setValue` lower-case to `example` and `setvalue` |
| CallFinderExample.StackedOperatorsLine | src/CallFinder.php:74 | in the example, the call's name token is on line 2 |
| CallFinderExample.LinesBeforeName | src/CallFinder.php:74 | the only line feed before the call's name is the one ending the open tag |
| CallFinderExample.LinesBeforeClass | src/CallFinder.php:74 | the only line feed in front of `Example` is the one ending the open tag |
| CallFinderExample.StackedOperatorsSpan | src/CallFinder.php:112-150 | in the example, the call's span is `'test'` and `)`, with no line feed |
| CallFinderExample.ClosingSpan | src/CallFinder.php:118-150 | the forward scan over `'test'`, `)`, `;` stops at `)` and passes no line feed |
| CallFinderExample.StackedOperatorsCollected | src/CallFinder.php:159-184 | the operators in front of the example call are `-`, `+`, `@`, `!`, nearest first |
| CallFinderExample.StackedOperatorsNext | src/CallFinder.php:91-93 | the first real token after the name is `(` |
| CallFinderExample.StackedOperatorsShape | src/CallFinder.php:101-108 | the window in front of the name ends with `Example` and `::` |
| CallFinderExample.StackedOperatorsAccepted | src/CallFinder.php:86-156 | the `setValue` name token is an accepted call |
| CallFinderExample.StackedOperatorsOnlyCall | src/CallFinder.php:87-89 | no other token of the example is accepted |
| CallFinderExample.StackedOperatorsCalls | src/CallFinder.php:186 | the example's accepted calls are that one operator list |
| CallFinderExample.StackedOperatorsDistinct | src/CallFinder.php:189 | the four operators of the example are distinct |
| CallFinderExample.StackedOperatorsExample | tests/Unit/ModifierTest.php:65-69 | `! @+-Example::setValue('test')` yields exactly the four operators used |
| Utils.CalledAs | src/Utils.php:12-16 | a frame with a class is compared as the lower-cased (class, function) pair, and one without as the lower-cased function name. A missing function reads as "" |
| Utils.TraceFrameIsListed | src/Utils.php:10-19 | definition: strict `in_array` of `CalledAs(f)`, so a frame matches iff its lower-cased name or pair equals some entry exactly. `ShapeMustAgree`, `ListedIgnoresCase` and `ListedEntryIsLower` give its consequences |
| Utils.ShapeMustAgree | src/Utils.php:12-18 | a frame with a class never matches a bare name, and a class-less frame never matches a pair |
| Utils.ListedIgnoresCase | src/Utils.php:13-18 | frames whose names differ only in ASCII case match the same entries |
| Utils.ListedEntryIsLower | src/Utils.php:13-18 | only a lower-case entry can match a frame |
| Utils.IdentifierIsClassName | src/Utils.php:28-29 | every string accepted as a method name is also accepted as a class part |
| Utils.MatchesIdentifierPattern | src/Utils.php:28 | definition: the whole string, or the whole string but one final line feed, is a letter, `_` or byte 0x7f-0xff followed by such characters or digits |
| Utils.MatchesClassPattern | src/Utils.php:29 | definition: as the identifier pattern, with a backslash also allowed anywhere, the first position included |
| Utils.StringsOf | src/Utils.php:25 | `array_values(array_filter(..., 'is_string'))` keeps the length exactly when every element is a string, and then keeps the strings in order |
| Utils.NormalizeEntry | src/Utils.php:24-48 | a string survives iff it matches the identifier pattern, and becomes its lower-case form. A two-element array survives iff both elements are strings, the method matches the identifier pattern and the class matches the class pattern. It becomes `[lower(ltrim(class)), lower(method)]`. Everything else is dropped, and every survivor is lower-case |
| Utils.Normalized | src/Utils.php:21-52 | the normalised list is no longer than the input, and every entry is lower-case |
| Utils.NormalizedAppend | src/Utils.php:23-51 | entries are normalised independently and keep their relative order |
| Utils.NormalizedKeeps | src/Utils.php:23-51 | an entry that survives normalisation is in the output |
| Utils.NormalizedSource | src/Utils.php:23-51 | every output alias comes from some entry of the declared list |
| Utils.NormalizedMembers | src/Utils.php:21-52 | an alias is in the output iff some input entry normalises to it |
| Utils.NothingSurvives | src/Utils.php:35-51 | a list of rejected entries, the empty list among them, normalises to `[]` |
| Utils.DeclaredNameMatches | src/Utils.php:10-42 | a declared function name matches a class-less frame of that function, whatever the case of either |
| Utils.DeclaredPairMatches | src/Utils.php:10-34 | a declared `[class, method]` pair matches a frame of that method and class, ignoring case and the class's leading backslashes |
| Utils.SlotFor | src/Utils.php:31-47 | each entry is rewritten to its canonical form when it survives and unset otherwise |
| Utils.Reindexed | src/Utils.php:51 | `array_values` keeps only the rewritten slots |
| Utils.ReindexedSlots | src/Utils.php:23-51 | rewriting every slot and reindexing gives `Normalized` |
| Utils.NormalizeAliases | src/Utils.php:21-52 | the by-reference loop followed by `array_values` returns exactly `Normalized` |
| HasModifiers.GetModifierAliases | src/HasModifiers.php:15-22 | the declared alias list, or `[]` when the class declares none |
| HasModifiers.AutoloadFrames | src/HasModifiers.php:74-76 | a frame is left off the working list iff it is class-less and its function is `spl_autoload_call`, in any case |
| HasModifiers.Kept | src/HasModifiers.php:74 | definition: a frame goes onto the working list unless it reads as the bare name `spl_autoload_call`. `AutoloadFrames` ties this to `traceFrameIsListed` |
| HasModifiers.KeptFrames | src/HasModifiers.php:74-76 | the working list is no longer than the frames it is built from and holds only frames that pass the filter, so with `Kept` no autoload frame |
| HasModifiers.LastListed | src/HasModifiers.php:68-72 | the position found, if any, lies within the trace |
| HasModifiers.LastListedIsLast | src/HasModifiers.php:68-72 | the position found is that of a frame matching an alias with no matching frame after it, and there is none iff no frame matches |
| HasModifiers.Selected | src/HasModifiers.php:68-81 | definition: the head of the kept frames from the last matching frame on, or none. `SelectedFrame`, `AnchorSelected` and `NoListedFrameNoneSelected` characterise it, and `SelectCallee` computes it |
| HasModifiers.FirstKept | src/HasModifiers.php:80 | the head of the filtered list is the first frame that passes the filter |
| HasModifiers.NoneKept | src/HasModifiers.php:74-76 | an empty filtered list means that no frame passed the filter |
| HasModifiers.SomeKept | src/HasModifiers.php:74-76 | a frame that passes the filter makes the list non-empty |
| HasModifiers.FirstKeptFrom | src/HasModifiers.php:68-80 | the head of the list rebuilt from position `j` is the first frame at or after `j` that passes the filter |
| HasModifiers.SelectedFrame | src/HasModifiers.php:68-81 | the selected frame is the first kept frame at or after the last matching frame: never one before it, never an autoload frame |
| HasModifiers.AnchorSelected | src/HasModifiers.php:68-81 | the last matching frame is itself selected unless it is an autoload frame |
| HasModifiers.NoListedFrameNoneSelected | src/HasModifiers.php:62-81 | with no matching frame, nothing is selected |
| HasModifiers.LastListedStep | src/HasModifiers.php:69-72 | each frame either becomes the last matching frame or leaves it as it was |
| HasModifiers.KeptFramesStep | src/HasModifiers.php:74-76 | each frame is appended to the list exactly when it passes the filter |
| HasModifiers.SelectedAfterLoop | src/HasModifiers.php:79-81 | after the loop, the callee is the head of the working list when `$found` is set and the list is not empty, and none otherwise |
| HasModifiers.SelectCallee | src/HasModifiers.php:60-81 | the loop returns exactly `Selected` |
| HasModifiers.CalleeOrNoFrame | src/HasModifiers.php:79-83 | definition: `$callee ?: []`, the selected frame or the empty frame when none is selected |
| HasModifiers.CallSiteOf | src/HasModifiers.php:95-103 | there is a call site iff the frame has file, line and function and the file is readable. The signature is the bare function when the class is empty (missing, "" or "0"), and the pair otherwise |
| HasModifiers.SingleCall | src/HasModifiers.php:93-112 | null exactly when there is no call site; otherwise only operator symbols |
| HasModifiers.GetSingleCall | src/HasModifiers.php:93-112 | the method returns exactly `SingleCall` |
| HasModifiers.ModifiersFor | src/HasModifiers.php:42-51 | the reported operators have no duplicates and are among the five symbols |
| HasModifiers.GetCallInfo | src/HasModifiers.php:60-84 | the selected frame, or an empty frame when none is selected, goes to `getSingleCall` |
| HasModifiers.GetModifiers | src/HasModifiers.php:42-51 | returns exactly `ModifiersFor`, with `[]` for null |
| HasModifiers.NoListedFrameNoModifiers | src/HasModifiers.php:42-84 | with no frame matching an alias, the answer is `[]` |
| HasModifiers.NoAliasesNoModifiers | src/HasModifiers.php:15-22 | a class that declares no aliases never sees an operator |
| HasModifiers.IncompleteFrameNoModifiers | src/HasModifiers.php:95-97 | a frame without file, line or function, or with an unreadable file, gives `[]` |
| HasModifiers.HasModifier | src/HasModifiers.php:24-27 | `in_array` of a string among the one-character operator strings: holds iff `m` is a single character that is in the list |
| HasModifiers.HasModifiers | src/HasModifiers.php:29-40 | the loop holds iff every element of `ms` satisfies `HasModifier`, and so is true for an empty `ms` |
| HasModifiers.ReportedModifier | src/HasModifiers.php:24-51 | only a single character naming one of the five operators is ever reported as used |
| HasModifiers.NoAliasesOnlyEmptyQuestion | src/HasModifiers.php:15-40 | for a class that declares no aliases, `hasModifiers` holds only for the empty list |

## Left out

- `token_get_all`: the tokenizer is not part of this model. Tokens are an input, and the `T_*` constants are abstract kinds; every kind the finder does not name is `Other`. PHP 8 single-token qualified names (`T_NAME_QUALIFIED`) are not handled by the code either.
- `debug_backtrace`: the stack trace is a parameter. Only the `file`, `line`, `function` and `class` keys are modelled, with string or integer values or missing.
- `is_readable`, `file_get_contents`: a map from readable paths to token sequences stands for reading and tokenising the file.
- The PCRE engine: the two identifier patterns are predicates over whole strings. The anchored match also accepts one trailing `"\n"`, as `$` does without the `D` modifier.
- `strtolower` is ASCII only; locale-dependent lower-casing of bytes 0x80-0xff is not modelled.
- PHP strings are byte strings; each byte is the `char` with the same code.
- Late static binding and `isset(static::$modifierAliases)`: the declared list is a parameter, `None` when undeclared or null. A declared value that is not an array, which would make the `array` return type throw, is not modelled.
- Array keys: `array_unique` keeps the original keys. The model returns the surviving values as a list, which is what `in_array` looks at. Alias arrays are modelled as lists of their values, and `array_values(array_filter(...))` discards their keys.
- HasModifiers.HasModifier: `hasModifier` and `hasModifiers` call `getModifiers` themselves; here they take its result as the parameter `used`, and `HasModifiers.ReportedModifier` and `HasModifiers.NoAliasesOnlyEmptyQuestion` apply them to `ModifiersFor`.
- HasModifiers.HasModifiers: the elements of `$modifiers` are modelled as strings. Loose `in_array` comparison of a non-string element, such as an integer, with the operator strings is not modelled. Between two strings that are not both numeric, which is always the case here, loose comparison is plain equality.
- `array_merge()` with no arguments is `[]`, as in PHP 7.4 and later; the warning and `null` of older versions are not modelled.
- The dangling reference that `foreach (... as &$alias)` leaves behind has no effect on the returned list and is not modelled.
