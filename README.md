# anytype-cli core: table rendering and space resolution, in Dafny

This project models the two engines of the `anytype-cli` command-line client
that carry its checkable logic, and proves properties of them.

- **The adaptive table renderer** (`internal/output/output.go`):
  `Truncate`, the `Table` struct built by `NewTable`, rows appended in
  place by `AddRow`, configuration changed by the `Set*` methods, and
  `(*Table).String`. `String` computes per-column widths: the header length,
  widened to the longest cell, raised to the minimum, then clamped by the
  column's own cap or else the global cap. It then writes a header line, a
  dash separator and one line per row, left-justified and padded, truncating
  data cells when allowed.
- **Space resolution** (`internal/spaces/resolver.go`): the decision
  `ResolveSpace` makes once the list of spaces is fetched. The steps are an
  exact ID, then the first case-insensitive name, then a unique partial
  match or an ambiguity error (listing at most five matches), and finally
  the raw input passed through. Also the completion list that
  `GetSpaceCompletionFunc` builds.

Files:

- `text.dfy`, module `Text`: ASCII stand-ins for `strings.Repeat`,
  `strings.ToLower`, `strings.EqualFold`, `strings.Contains` and `%d`, plus
  a newline count.
- `output.dfy`, module `Output`: the renderer. `TableState` is the `Table`
  struct as a value. `Render(st)` specifies what `String()` produces, as a
  `Rendering`: the text, or the panic Go would raise. The class
  `Output.Table` has the struct's fields. Its setters are stated as updates of
  `State()`, and its `String` method is written with the source's loops (the
  width buffer is an `array<int>`) and proved to return `Render(State())`.
- `resolver.dfy`, module `Spaces`: `Resolve(spaces, input)` specifies the
  decision. `ResolveSpace` runs the source's loops with early returns and is
  proved to return `Resolve`. `SpaceCompletions` builds the completion list.

Behaviour of the code worth knowing:

- `ResolveSpace`'s doc comment (internal/spaces/resolver.go:58-60) says a
  name is tried first, but the code tries an exact ID first (lines 72-78),
  then a case-insensitive name, then partial matches. `Resolve` follows the
  code.

- `Truncate(s, max)` with `len(s) > max` and `max < 3` panics on the slice
  `s[:max-3]`. It does not degrade to showing fewer characters.
  `Truncate`'s precondition excludes that input. `Render` returns
  `Panicked(SliceOutOfRange)` when `String()` would reach it, which needs a
  truncatable cell in a column whose cap is 1 or 2.
- `strings.Repeat(" ", Padding)` panics for a negative padding. `String()`
  reaches it as soon as a table has two headers. `Render` returns
  `Panicked(NegativeRepeatCount)` then.
- The name step returns the first case-insensitive match in list order.
  Several matching names are not ambiguous.
- An empty input is a substring of every name, so every space is a partial
  match. A space whose name is empty already matches `""` at the name step.
- A row need not have one cell per header. The width and output loops skip
  cells beyond the header count. A short row writes fewer fields.
- An exceeded column cap gives exactly that cap and the global cap is not
  consulted; when a column cap is unset or not exceeded, the global cap
  still applies.

## Model

| member | source | states |
|---|---|---|
| `Output.PadRight` | internal/output/output.go:167-168 | `%-Ns`: the result has length max(len(s), N), starts with `s` and is filled with spaces; it is never shorter than `s` |
| `Output.Truncate` | internal/output/output.go:37-43 | a string no longer than `max` comes back unchanged; a longer one becomes exactly `max` characters, its first `max-3` characters followed by `"..."`; inputs that would panic are excluded |
| `Output.ColumnExtentIsMax` | internal/output/output.go:132-143 | a column's width before the limits is at least the header length and at least every cell in that column, and equals one of them |
| `Output.FinalWidth` | internal/output/output.go:145-158 | the limited width is at most the raised width and at most a positive column cap; an exceeded column cap gives exactly that cap; otherwise an exceeded global cap gives exactly the global cap; otherwise it is the raised width |
| `Output.ColumnWidthRules` | internal/output/output.go:132-158 | per table column: a positive cap is never exceeded; the global cap is exceeded only through the column cap; the header, every cell and the minimum fit unless a cap is below them; the width is never more than the minimum or the widest entry; an exceeded column cap gives exactly that cap, otherwise an exceeded global cap gives the global cap |
| `Output.RenderCell` | internal/output/output.go:184-198 | a data cell is shortened iff its column may truncate and it is longer than the width; then it is exactly the width long and ends in `"..."`; otherwise it is kept in full and right-padded |
| `Output.RowsTextSnoc` | internal/output/output.go:181-201 | appending a row appends exactly that row's line and a newline, and the rows can be rendered iff the old rows and the new row can |
| `Output.SeparatorLength` | internal/output/output.go:172-179 | the separator line has length `sum(widths) + padding*(N-1)` |
| `Output.SeparatorChars` | internal/output/output.go:172-179 | the separator line holds only dashes and spaces |
| `Output.RowFieldsWidth` | internal/output/output.go:181-199 | cells that fit or may be truncated yield fields exactly as long as the separator's |
| `Output.RowFieldsIgnoreExtra` | internal/output/output.go:183-186 | cells at an index at or beyond the header count add nothing to a line |
| `Output.HeaderFieldsWidth` | internal/output/output.go:162-169 | header cells are only padded: when each fits its width, the header line is as long as the separator |
| `Output.RowAligned` | internal/output/output.go:181-200 | a full row whose cells fit or may be truncated renders to a line as long as the separator line |
| `Output.HeaderAligned` | internal/output/output.go:132-170 | when no cap is below a header's length, the header line is as long as the separator line |
| `Output.RenderLineCount` | internal/output/output.go:160-203 | without line breaks inside cells, the output has exactly `2 + len(Rows)` newlines and ends with one |
| `Output.RenderDoesNotPanic` | internal/output/output.go:42-43 | with a non-negative padding and no cap of 1 or 2 (caps unset or at least 3), `String()` cannot panic, whatever the minimum |
| `Output.DefaultTableWidths` | internal/output/output.go:66-78 | a table with NewTable's settings gets every column between 5 and 80 wide and renders without panicking |
| `Output.NameExampleLayout` | internal/output/output.go:132-158 | for the example table, the ID column is raised to 5 and the NAME column is capped at 10 |
| `Output.NameExampleRow` | internal/output/output.go:181-199 | for the example row, the ID is padded to 5 and the 32-character name becomes `"A very ..."` |
| `Output.TruncatedNameColumnExample` | internal/output/output.go:125-204 | the exact text rendered for headers ID and NAME, NAME capped at 10 and truncatable, and one row with a long name |
| `Output.Table.NewTable` | internal/output/output.go:66-78 | no rows, minimum 5, maximum 80, padding 2, no truncation, all column caps 0, all column flags false, one entry per header; the invariant holds |
| `Output.Table.AddRow` | internal/output/output.go:80-83 | the rows grow by exactly the given row; everything else is unchanged |
| `Output.Table.SetMinWidth` | internal/output/output.go:85-89 | only the minimum changes; the receiver is returned |
| `Output.Table.SetMaxWidth` | internal/output/output.go:91-95 | only the maximum changes; the receiver is returned |
| `Output.Table.SetPadding` | internal/output/output.go:97-101 | only the padding changes; the receiver is returned |
| `Output.Table.SetTruncate` | internal/output/output.go:103-107 | only the table-wide truncate flag changes; the receiver is returned |
| `Output.Table.SetColumnWidth` | internal/output/output.go:109-115 | an in-range index changes exactly that column's cap; an out-of-range index changes nothing |
| `Output.Table.SetColumnTruncate` | internal/output/output.go:117-123 | an in-range index changes exactly that column's flag; an out-of-range index changes nothing |
| `Output.Table.MeasureColumns` | internal/output/output.go:131-143 | a fresh buffer of one width per header, each the column's extent |
| `Output.Table.LimitColumns` | internal/output/output.go:145-158 | the buffer holds the final widths afterwards |
| `Output.Table.WriteHeader` | internal/output/output.go:162-169 | the header line, or a panic exactly when there are two or more headers and the padding is negative |
| `Output.Table.WriteSeparator` | internal/output/output.go:172-178 | the separator line |
| `Output.Table.WriteRow` | internal/output/output.go:183-199 | one row's line, or a panic exactly when a rendered cell would need truncation to a width below 3 |
| `Output.Table.WriteRows` | internal/output/output.go:181-201 | the data lines, or a panic exactly when some row would panic |
| `Output.Table.String` | internal/output/output.go:125-204 | returns `Render` of the table's state without modifying the table: `""` with no headers, otherwise the header, separator and row lines, or the panic Go raises |
| `Text.Repeat` | internal/output/output.go:177 | exactly `count` copies of the character |
| `Text.Contains` | internal/spaces/resolver.go:90 | true iff the substring occurs at some position |
| `Text.ContainsEmpty` | internal/spaces/resolver.go:90 | the empty string is contained in every string |
| `Text.NatToString` | internal/spaces/resolver.go:110 | a non-empty digit string without a leading zero unless the value is 0 |
| `Text.ParseNatToString` | internal/spaces/resolver.go:110 | the decimal text reads back as the number |
| `Spaces.FirstNameMatch` | internal/spaces/resolver.go:80-85 | the least index whose name equals the input case-insensitively, or none iff no name does |
| `Spaces.FindId` | internal/spaces/resolver.go:72-78 | true iff some space's ID equals the input |
| `Spaces.FindName` | internal/spaces/resolver.go:80-85 | the first case-insensitive name match |
| `Spaces.CollectMatches` | internal/spaces/resolver.go:87-93 | the partial matches in list order |
| `Spaces.BuildMessage` | internal/spaces/resolver.go:100-111 | the ambiguity message: header, the first five entries, and the "... and N more" line when there are more |
| `Spaces.ResolveSpace` | internal/spaces/resolver.go:72-118 | returns `Resolve(spaces, input)` |
| `Spaces.PartialMatchesMembers` | internal/spaces/resolver.go:87-93 | the partial matches are listed spaces whose lower-cased names contain the lower-cased input; every such space is among them; there are at most as many as spaces |
| `Spaces.PartialMatchesPrefix` | internal/spaces/resolver.go:87-93 | order is kept: the matches among the first `i` spaces are a prefix of all matches |
| `Spaces.PartialMatchesNone` | internal/spaces/resolver.go:87-93 | no name contains the input, so there are no partial matches |
| `Spaces.PartialMatchesOnly` | internal/spaces/resolver.go:87-93 | exactly one name contains the input, so that space is the only match |
| `Spaces.PartialMatchesTwo` | internal/spaces/resolver.go:87-93 | two names containing the input give at least two matches |
| `Spaces.ResolveExactId` | internal/spaces/resolver.go:72-78 | an exact ID match resolves to that ID whatever the names are |
| `Spaces.ResolveFirstName` | internal/spaces/resolver.go:80-85 | with no ID match, the first case-insensitive name match in list order resolves, even if later names match too |
| `Spaces.ResolveUniquePartial` | internal/spaces/resolver.go:95-98 | with no ID or name match, a single partial match resolves to its ID |
| `Spaces.ResolveAmbiguous` | internal/spaces/resolver.go:100-113 | with no ID or name match, two partial matches give the ambiguity error with all partial matches and the capped message |
| `Spaces.ResolvePassThrough` | internal/spaces/resolver.go:115-118 | when no ID equals the input and no name contains it, the input is returned unchanged without error |
| `Spaces.FoldImpliesContains` | internal/spaces/resolver.go:80-93 | a name equal to the input up to case also contains it |
| `Spaces.ResolvedIsKnown` | internal/spaces/resolver.go:72-118 | a successful result is the input or the ID of a listed space |
| `Spaces.AmbiguousShape` | internal/spaces/resolver.go:100-113 | the ambiguity error lists the partial matches, at least two, and its message starts with `space not found: multiple spaces matched '<input>'` |
| `Spaces.EntriesEnd` | internal/spaces/resolver.go:104-108 | a non-empty list of entries ends with the closing parenthesis of the last entry |
| `Spaces.MessageSuffix` | internal/spaces/resolver.go:104-111 | with more than five matches the message ends with the `"\n  ... and N more"` line for N = matches - 5; otherwise it ends with the last match's entry; its last character is `e` iff more than five matched |
| `Spaces.MessageShowsFirstFive` | internal/spaces/resolver.go:104-111 | matches after the fifth change the message only through their number |
| `Spaces.MessageCount` | internal/spaces/resolver.go:109-111 | with more than five matches the message ends with a count line whose decimal digits read back as the number of unlisted matches |
| `Spaces.EmptyInputMatchesAll` | internal/spaces/resolver.go:88-93 | with an empty input every space is a partial match, in order |
| `Spaces.EmptyInputResolution` | internal/spaces/resolver.go:72-118 | with an empty input and no empty IDs or names: no spaces pass `""` through, one space resolves to its ID, several are ambiguous |
| `Spaces.SpaceCompletions` | internal/spaces/resolver.go:39-54 | two entries per space in list order: `id\tname`, then `name\tid`, or `quoted(name)\tid` when the name holds a space, tab, CR or LF |
| `Spaces.IdCompletionSplits` | internal/spaces/resolver.go:43 | an ID entry splits at its first tab back into the ID and the name when the ID has no tab |

## Left out

- `FormatAsJSON`, `FormatAsYAML` and `FormatTime` (internal/output/output.go:19-52) wrap encoding/json, yaml.v3 and `time.Format`; the format constants are unused by the core.
- The network call that lists the spaces, its timeouts, and the "failed to list spaces" error (internal/spaces/resolver.go:62-70, 29-37): the list is an input sequence.
- The authentication check and the cobra completion directives of `GetSpaceCompletionFunc` (internal/spaces/resolver.go:24-27, 54): outside the list-building loop.
- Go's `%q` quoting (internal/spaces/resolver.go:49) is the function parameter `quote` of `SpaceCompletions`.
- Unicode: `strings.EqualFold` and `strings.ToLower` are modelled on ASCII, and `%-Ns` padding counts characters as `len` counts bytes; multi-byte text is not modelled.
- Go's fixed-width `int` is modelled as unbounded integers; overflow of widths or counts is not modelled.
- Output.Table.String: requires the object invariant that the per-column slices have one entry per header. The Go fields are public and can be replaced directly, after which `String()` could index out of range; the model only changes them through its methods.
- Output.Table: slice aliasing is not modelled. NewTable keeps the caller's `headers` slice and AddRow (internal/output/output.go:82) keeps the caller's row slice, so in Go a later write through either slice changes the table; here the table holds values. The identity of the chaining return value beyond "the receiver is returned" is not modelled either.
- Everything under `cmd/`, and `internal/config`, `internal/auth` and `internal/client`: command wiring, persistence, prompts and SDK construction.
