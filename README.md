# standardese comment sections and namespace targets, in Dafny

This project models two parts of standardese, a documentation generator for
C++.

**The comment section parser** (`src/comment.cpp`) has two halves.
- A process-wide configuration:
  - the command character (`\` by default);
  - the map from command tokens such as `returns` or `notes` to section kinds;
  - the heading table, from kind to display heading.
- A character scanner. It splits one raw documentation comment into an
  ordered list of `(kind, heading, body)` sections:
  - every newline finishes the pending section;
  - comment markers (spaces and slashes) at the start of each line are skipped;
  - a command character followed by a known token switches the kind;
  - an unknown token is reported as a parse error and otherwise ignored;
  - the first brief section that is emitted turns the kind into details.

**The target-name assembly** (`src/cpp_namespace.cpp`) covers namespace
aliases, using-directives and using-declarations. It folds the references
visited under the declaration's cursor into two strings:
- a target, the spellings joined with `::`;
- a target scope, the scope of the first reference.

The alias's unique name is built from those two.

Modules:

- `Comment` (`comment.dfy`) holds:
  - the section kinds, the default tables and the `SectionConfig` class;
  - the bounds-tolerant stream view and trimming;
  - the scanner. `Step`, `Loop`, `Run` and `Scan` specify it as a state
    machine (`Loop` stops at the stream end, `Run` adds the final flush),
    and the method `ParseComment` runs it as the source's loop. `ParseComment` is
    proved equal to `Scan` under the current configuration.
- `CommentProperties` (`comment_properties.dfy`) proves what the scanner
  promises:
  - every emitted section and diagnostic is well formed;
  - exactly when the scan never ends;
  - the exact section list for a comment with no command;
  - the exact section list for a comment that opens with a command.
- `CommentExamples` (`comment_examples.dfy`) holds two instances:
  - the two-line comment `"/// a\n/// b"`;
  - the renaming of `notes` to `remark`.
- `CppNamespace` (`cpp_namespace.dfy`) holds the `parse_target` loop and its
  reference definition. It also holds the three `parse` functions that wire
  the result into entities.

Some descriptions of this parser say that `"/// a\n/// b"` gives one brief
section `"a\nb"`. The code flushes the pending section at every newline
(`src/comment.cpp:162-168`). The model follows the code: the result is brief
`"a"` followed by details `"b"` (`CommentExamples.TwoLines`).

A command whose token is never followed by a space makes the source loop
forever: past the end, the stream reads as newlines and never as a space
(`src/comment.cpp:60-66`, `178`). The model returns `Unterminated(at)`
instead. `CommentProperties.ScanUnterminated` says exactly when that happens.

## Model

| member | source | states |
|---|---|---|
| `Comment.DefaultNames` | src/comment.cpp:20-41 | the default heading table has exactly one entry per kind |
| `Comment.DefaultNamesIndexed` | src/comment.cpp:26-38 | each kind's entry is its default heading: empty for brief and details, the capitalised English name otherwise |
| `Comment.ParseSectionName` | src/comment.cpp:45-51 | a token in the command map resolves to its kind; any other token resolves to the invalid kind |
| `Comment.DefaultCommandsResolve` | src/comment.cpp:20-41 | by default each kind's identifier is a command token, and it resolves to that kind |
| `Comment.DefaultCommandsAreIdentifiers` | src/comment.cpp:20-41 | every default command token resolves to a real kind, and the token is that kind's identifier |
| `Comment.DefaultHeadings` | src/comment.cpp:26-38 | only brief and details have an empty default heading; every other default heading starts with a capital letter |
| `Comment.DefaultSettings` | src/comment.cpp:15-43 | the start-up configuration (`\`, default tokens, default headings) has a heading for every kind |
| `Comment.SectionConfig.Default` | src/comment.cpp:15-43 | the static initialiser: command character `\`, the default command map, the default heading table; its snapshot is the start-up configuration |
| `Comment.SectionConfig.SetCommandCharacter` | src/comment.cpp:98-101 | replaces the command character; the command map is unchanged and the heading table keeps one entry per kind |
| `Comment.SectionConfig.SetSectionCommand` | src/comment.cpp:103-106 | the token now resolves to the kind, whatever it resolved to before; every other token, including other tokens of the same kind, resolves as before |
| `Comment.SectionConfig.RenameSectionCommand` | src/comment.cpp:108-120 | an unknown old token fails and changes nothing; a new token already in use fails after the old token has been removed; otherwise the new token resolves to the old token's kind and the old token (if different) no longer resolves; all other tokens are untouched |
| `Comment.SectionConfig.SetSectionName` | src/comment.cpp:122-126 | for a real kind, sets that kind's heading and no other |
| `Comment.SectionConfig.SetSectionNameOfCommand` | src/comment.cpp:128-134 | an unknown token fails and changes nothing; otherwise the heading of the token's kind is set |
| `Comment.IndexInjective` | src/comment.cpp:18 | distinct kinds occupy distinct rows of the heading table |
| `Comment.StreamView` | src/comment.cpp:54-75 | the stream is one longer than the comment, reads a newline at index 0 and past the end, and the comment's character i - 1 at index i |
| `Comment.LeadingSpacesSpec` | src/comment.cpp:79-81 | the forward scan stops at the first non-whitespace character (or the end) and skips only whitespace |
| `Comment.TrailingEndSpec` | src/comment.cpp:83-85 | the backward scan, guarded at 0, stops after the last non-whitespace character and skips only whitespace |
| `Comment.TrimSpec` | src/comment.cpp:77-90 | the trimmed string has no leading or trailing whitespace; it is empty exactly when the input is all whitespace; otherwise it is the input between the two scans |
| `Comment.SliceSpec` | src/comment.cpp:87-89 | the characters collected from one index to another are the slice of the string between them, which the two erasures leave |
| `Comment.TrailingEndUnique` | src/comment.cpp:83-85 | the end that the backward scan reaches is the only one with an all-whitespace tail and a non-whitespace last character |
| `Comment.TrimIsInnerSlice` | src/comment.cpp:87-89 | trimming keeps one contiguous slice of the input and drops only whitespace around it |
| `Comment.TrimKeepsInputChars` | src/comment.cpp:77-90 | every character of the trimmed string occurs in the input |
| `Comment.TrimIdempotent` | src/comment.cpp:77-90 | trimming a trimmed string changes nothing |
| `Comment.TrimWhitespace` | src/comment.cpp:77-90 | the two scanning loops followed by the two erasures compute `Trim` (with the backward loop guarded at 0, see Findings) |
| `Comment.BackScanAsWritten` | src/comment.cpp:83-85 | the unguarded backward scan reads an index between -1 and the start position |
| `Comment.BackScanAsWrittenOutOfRange` | src/comment.cpp:83-85 | the unguarded scan reads index -1 exactly when the string is empty or all whitespace; otherwise it stops where the guarded scan does |
| `Comment.FlushEffect` | src/comment.cpp:142-156 | finishing a blank body emits nothing and keeps the kind; finishing any other body appends one section of the current kind, with its heading and the trimmed body, and moves brief to details; the body is then empty |
| `Comment.SkipMarkers` | src/comment.cpp:170-172 | the skip after a newline passes over exactly the run of spaces and slashes and stops within the stream |
| `Comment.ReadTokenSpec` | src/comment.cpp:177-179 | a command token is the accumulated text followed by everything up to the next space, which ends it and is not part of it; there is no token exactly when no space follows |
| `Comment.Step` | src/comment.cpp:160-197 | one iteration of the loop always advances and never selects the invalid kind; a newline counts the line, finishes the pending body and skips the markers after it; the command character reads a token, and a known token finishes the body under the old kind and switches kind while an unknown one adds a diagnostic (entity, current line, token); any other character is appended to the pending body |
| `Comment.RunStep` | src/comment.cpp:160-197 | the loop proceeds one iteration at a time |
| `Comment.RunThroughStep` | src/comment.cpp:160-197 | after one iteration that leaves the scanner in a given state, the rest of the loop runs from that state, which is valid and within the stream |
| `Comment.RunNewline` | src/comment.cpp:162-173 | at a newline the rest of the loop starts from the state after the newline: line counted, body finished, markers skipped |
| `Comment.FinishSection` | src/comment.cpp:142-156 | the `finish_section` lambda computes `Finish` under the current configuration and never yields the invalid kind |
| `Comment.SkipCommentMarkers` | src/comment.cpp:171-172 | the marker-skipping loop computes `SkipMarkers` |
| `Comment.ReadCommand` | src/comment.cpp:177-179 | the token-reading loop computes `ReadToken` |
| `Comment.ParseComment` | src/comment.cpp:136-199 | the parser's loop computes `Scan` under the configuration's current state |
| `CommentProperties.FlushKeepsOk` | src/comment.cpp:142-156 | finishing a body keeps every section well formed |
| `CommentProperties.StepKeepsOk` | src/comment.cpp:160-197 | each iteration keeps the pending body free of newlines and command characters, and keeps sections and diagnostics well formed |
| `CommentProperties.AfterNewlineKeepsOk` | src/comment.cpp:162-173 | the newline branch keeps the scanner state well formed |
| `CommentProperties.AfterTokenKeepsOk` | src/comment.cpp:174-190 | the command branch keeps the scanner state well formed, whether the token is known or reported |
| `CommentProperties.RunKeepsOk` | src/comment.cpp:160-198 | the rest of the loop keeps every output well formed |
| `CommentProperties.ScanOutputWellFormed` | src/comment.cpp:136-199 | every emitted section has a real kind, that kind's heading, and a non-empty trimmed body without newline or command character; every diagnostic names the entity and an unknown token |
| `CommentProperties.RunUnterminatedAt` | src/comment.cpp:174-179 | if the loop never ends, it is stuck at a command character with no space after it |
| `CommentProperties.RunReachesUnterminated` | src/comment.cpp:174-179 | when the command character is not a newline, a space or a slash, a command character with no space after it, not yet passed, makes the loop never end |
| `CommentProperties.ScanUnterminated` | src/comment.cpp:60-66 | the parse never ends only at a command character with no later space; when the command character is not a newline, space or slash, it never ends exactly when such a character occurs |
| `CommentProperties.LinesFromJoin` | src/comment.cpp:162-168 | the lines from an index on, joined by newlines, give back the rest of the comment, and no line holds a newline |
| `CommentProperties.LinesJoin` | src/comment.cpp:162-168 | splitting a comment at its newlines loses nothing |
| `CommentProperties.LabelledKinds` | src/comment.cpp:148-153 | without commands, every section has the first kind or the kind that follows it, under that kind's heading |
| `CommentProperties.LabelledAppend` | src/comment.cpp:148-153 | emitting one more body adds one section of the current kind at the end |
| `CommentProperties.LoopThroughText` | src/comment.cpp:191-196 | a run of characters that are neither newlines nor the command character is appended to the pending body in order, and the loop goes on after it |
| `CommentProperties.SkipLineMarkers` | src/comment.cpp:170-172 | after a newline, the scanner skips exactly the line's leading markers |
| `CommentProperties.LoopToLineEnd` | src/comment.cpp:191-196 | without commands, from any index within a line to its newline, the loop only appends the rest of the line to the pending body |
| `CommentProperties.RunToLineEnd` | src/comment.cpp:160-198 | the same for the whole scan, including the final flush |
| `CommentProperties.StrippedLine` | src/comment.cpp:170-172 | the text from where the marker skip stops up to the newline is the line without its leading spaces and slashes |
| `CommentProperties.LineBody` | src/comment.cpp:170-196 | a line's pending body at its newline is the line without its markers, and its trimmed form heads the bodies of the lines from there on |
| `CommentProperties.FlushLine` | src/comment.cpp:142-156 | finishing a line's body adds it to the emitted bodies unless blank |
| `CommentProperties.RunAtLineEnd` | src/comment.cpp:160-198 | from the end of a line, without commands, the result is the sections of the bodies so far, this line's body and every later line's body |
| `CommentProperties.RunPlainLines` | src/comment.cpp:160-198 | from the start of a line, without commands, each later non-blank line becomes one section |
| `CommentProperties.LinesFromCons` | src/comment.cpp:162-168 | the lines from an index are its first line followed by the lines after the next newline |
| `CommentProperties.LineBodiesCons` | src/comment.cpp:170-172 | a line contributes its stripped, trimmed text, unless that is blank |
| `CommentProperties.ScanPlainComment` | src/comment.cpp:136-199 | a comment with no command character is split at every newline; each line loses its markers and is trimmed; each non-blank line is its own section (first brief, then details, never merged); there is no diagnostic |
| `CommentProperties.ReadTokenAt` | src/comment.cpp:177-179 | the token ends at the first space after the command character |
| `CommentProperties.RunFromMidLine` | src/comment.cpp:160-198 | after a command token, with nothing pending or emitted yet (as after a leading command), the rest of its line (not marker-stripped) is one body and the later lines follow as plain lines |
| `CommentProperties.RestOfLineBody` | src/comment.cpp:174-196 | with nothing pending or emitted yet (as after a leading command), the text after a command token up to the newline is the first body the scanner collects there, before the later lines |
| `CommentProperties.RunLeadingCommand` | src/comment.cpp:162-189 | a comment that opens with a command reaches, after the synthetic newline and the token, the kind the token selects (brief and one diagnostic on line 1 when unknown) |
| `CommentProperties.RunOpeningNewline` | src/comment.cpp:60-66 | the newline the stream reads at index 0 starts line 1 at the first character, finishing nothing, when that character is not a marker |
| `CommentProperties.RunFirstToken` | src/comment.cpp:174-190 | a command token at the start of line 1 selects its kind, or, when unknown, is reported on line 1 and leaves the kind brief |
| `CommentProperties.FirstToken` | src/comment.cpp:177-179 | the token after the opening command character runs up to the first space |
| `CommentProperties.ScanLeadingCommand` | src/comment.cpp:174-190 | for a comment that opens with a command and contains no other command character, with a command character that is not a newline, space or slash: a known opening command makes it all of that kind (details after brief); an unknown one gives a single diagnostic on line 1 and brief/details sections; the token text is never part of a body |
| `CommentExamples.StripTripleSlash` | src/comment.cpp:170-172 | a `/// ` marker is stripped and nothing after it |
| `CommentExamples.TwoLineSplit` | src/comment.cpp:162-168 | `"/// a\n/// b"` has two lines |
| `CommentExamples.TwoLineBodies` | src/comment.cpp:170-172 | its line bodies are `"a"` and `"b"` |
| `CommentExamples.TwoLines` | src/comment.cpp:162-168 | `"/// a\n/// b"` gives brief `"a"` then details `"b"`, under any configuration whose command character is not in the text |
| `CommentExamples.RenamedOldToken` | src/comment.cpp:108-120 | under a configuration with command character `\` that does not know `notes`, as after `notes` is renamed, a comment opening with `\notes` has one diagnostic on line 1 and its text becomes brief/details sections |
| `CommentExamples.RenamedNewToken` | src/comment.cpp:108-120 | under a configuration with command character `\` in which `remark` resolves to notes, a comment opening with `\remark` is all notes sections and has no diagnostic |
| `CommentExamples.RenamedSettingsFacts` | src/comment.cpp:108-120 | the renamed configuration resolves `remark` to notes, does not know `notes`, and keeps the default headings |
| `CommentExamples.DefaultTokens` | src/comment.cpp:38 | `notes` is a default token of notes, and `remark` is not a default token |
| `CommentExamples.RenamedScanOld` | src/comment.cpp:174-190 | under the renamed configuration `\notes text` gives one diagnostic, and every section is brief or details under an empty heading |
| `CommentExamples.RenamedScanNew` | src/comment.cpp:174-190 | under the renamed configuration `\remark text` gives no diagnostic, and every section is notes under the heading "Notes" |
| `CommentExamples.RenameScenario` | src/comment.cpp:108-120 | renaming `notes` to `remark` on the default configuration and then parsing: `\notes` yields one diagnostic and headingless brief/details sections, `\remark` yields only notes sections |
| `CppNamespace.VisitCount` | src/cpp_namespace.cpp:58-62 | the visit reaches every cursor, or stops right after the first one that refers to an overloaded declaration |
| `CppNamespace.StopsAtOverload` | src/cpp_namespace.cpp:58-62 | cursors after the first overloaded declaration reference change nothing |
| `CppNamespace.CountStopsAt` | src/cpp_namespace.cpp:58-62 | the number of cursors visited does not depend on what follows an overloaded declaration reference |
| `CppNamespace.ReachesAll` | src/cpp_namespace.cpp:58-62 | without an overloaded declaration reference every cursor is reached |
| `CppNamespace.DropLeadingEmpty` | src/cpp_namespace.cpp:54-56 | a suffix of the names that starts with a non-empty name, preceded only by empty names |
| `CppNamespace.IntercalateSnoc` | src/cpp_namespace.cpp:54-56 | one more name adds a separator and the name at the end |
| `CppNamespace.JoinIsIntercalate` | src/cpp_namespace.cpp:53-56 | the fold equals the ordinary `::`-join of the names after the leading empty ones are dropped |
| `CppNamespace.JoinEmpty` | src/cpp_namespace.cpp:54-56 | the target is empty exactly when every spelling is |
| `CppNamespace.JoinPath` | src/cpp_namespace.cpp:53-56 | with a non-empty first spelling, the target is the ordinary `::`-join |
| `CppNamespace.TargetOfPath` | src/cpp_namespace.cpp:41-64 | when the first visited reference has a non-empty spelling and no overloaded declaration reference is visited, the target is every spelling joined by `::` |
| `CppNamespace.JoinNext` | src/cpp_namespace.cpp:53-56 | one more visited cursor appends its spelling to the target, after `::` only when the target is not empty |
| `CppNamespace.ParseTarget` | src/cpp_namespace.cpp:41-64 | the loop yields the fold of the reached spellings and the first reference's scope; with nothing visited both stay empty |
| `CppNamespace.QualifiedNameIsJoin` | src/cpp_namespace.cpp:74 | when the first name is not empty, the unique name is the scope and the target's names joined by `::`; an empty scope adds nothing |
| `CppNamespace.ParseNamespaceAlias` | src/cpp_namespace.cpp:67-76 | the alias keeps its scope, name, comment and the target; with no child or an empty target scope its unique name is the target, otherwise it is the target scope, `::` and the target; when the first spelling is non-empty this is the target scope and every spelling joined by `::` |
| `CppNamespace.ParseUsingDirective` | src/cpp_namespace.cpp:78-84 | the directive stores exactly the target and target scope of the visit |
| `CppNamespace.ParseUsingDeclaration` | src/cpp_namespace.cpp:86-94 | the declaration stores exactly the target and target scope of the visit |

## Left out

- Writing parse errors to `std::cerr` (`src/comment.cpp:92-95`) is left out. The model collects them as `Diagnostic(entity, line, token)` records instead. The message text is not modelled.
- The exception messages of the configuration setters (`src/comment.cpp:112`, `119`, `132`) are not modelled. `ConfigError` keeps the error kind and the offending token.
- The source works on bytes (`std::string`, `char`). The model uses `string` and reads each source byte as one character below U+0100. Under that reading a non-ASCII command character matches byte for byte, as in the source. Decoding UTF-8 text into code points is not modelled.
- The configuration is process-wide global state in the source. Here it is one `SectionConfig` object, passed to `ParseComment`.
- The two configuration setters throw `std::invalid_argument`. The model returns `Some(ConfigError)` instead.
- `Comment.SectionConfig.SetSectionNameOfCommand` requires that the token does not resolve to the invalid kind. The source would write past the heading table in that case, because `set_section_command` accepts the invalid kind.
- `Comment.SectionConfig.SetSectionName` requires a real kind. The source asserts the same.
- `std::isspace` is locale-dependent. The model uses the "C" locale set: space, tab, newline, vertical tab, form feed and carriage return.
- The unsigned index and line counters of the parser loop can wrap around. The model does not model that; its integers are unbounded.
- `trim_whitespace` erases from its argument in place. `Comment.TrimWhitespace` returns the trimmed string instead.
- The loop of the command branch never ends when no space follows. The model returns `Unterminated(at)`.
- `comment::parser::finish` (`src/comment.cpp:201-204`) only hands the result back. `ParseComment` returns it directly.
- The properties give the exact section list for two shapes of comment:
  - no command at all (`CommentProperties.ScanPlainComment`);
  - a single command at the very start (`CommentProperties.ScanLeadingCommand`).
  
  Comments with several commands are covered by the step lemmas and by `ParseComment` computing `Scan`. They have no closed-form statement.
- The libclang calls are inputs, not models. In `src/cpp_namespace.cpp` this covers:
  - `visit_children`, `clang_getCursorReferenced`, `clang_getCursorSpelling` and `clang_getCursorKind`;
  - `parse_name`, `parse_comment` and `parse_scope`.
  
  The preorder visit is a sequence of `Visited` records in visit order. Names and comments are parameters. The cursor-kind assertions at `src/cpp_namespace.cpp:27`, `46` and `69` become requirements, or are dropped where they are about the cursor itself.
- `cpp_namespace::parser` and `is_inline_namespace` (`src/cpp_namespace.cpp:18-37`) are not part of this model. They rest on a token search and on the entity registry, whose code is not available.
- Function, class and enum classification, which the repository's tests exercise, is not part of this model. Its implementation is not available.

## Findings

| source | as written | input that shows it | evidently intended | confidence | as-written member | corrected member |
|---|---|---|---|---|---|---|
| src/comment.cpp:83-85 | the backward whitespace scan of `trim_whitespace` reads the character before `end` with no check that `end` is positive, so on an empty or all-whitespace string it reads before the start of the string | the empty body finished at the synthetic newline that starts every parse (`src/comment.cpp:162-168`), or any blank line's body such as `"  "` | stop the backward scan at the start of the string, so that a blank body trims to the empty string | high; not executed | `Comment.BackScanAsWrittenOutOfRange` | `Comment.TrimWhitespace` |
