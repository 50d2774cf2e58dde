# purge: a Dafny model of the directory browser's core

purge is a terminal program for finding what takes up disk space. It lists a
directory, shows each entry's recursive size, and lets the user move a
selection up and down. This project models the four pieces of sequential logic
behind that:

- **Directory sizes** (`filesystem/directory/directory.go`). `Size(path)` lists
  `path` and adds up its children. A directory child is counted by recursing
  into `path + "/" + name`; any other child adds its reported size. A listing
  that fails counts as 0. `Entries(path)` builds one `Entry{Name, Size}` per
  child. The disk is modelled as a finite tree (`FileTree.Node`), and
  `ioutil.ReadDir` becomes `FileTree.ReadDir`, which resolves a path string
  against that tree. Both Go functions are methods with loops, as in the
  source. They are proved equal to pure definitions over the tree
  (`Directory.SizeAt`, `Directory.EntriesAt`). A lemma shows that the path
  `path + "/" + name` leads back to the listed child.
- **The selection state machine** (`filesystem/directory/navigator.go`). This
  is a class `Navigator` with the fields `currentPath`, `selectedIndex` and
  `entries`. `selectedIndex` is a `uint16`, and `SelectNextEntry` tests
  `uint16(len(entries)) - selectedIndex > 1`. The model reproduces the
  truncating conversion and the wrapping subtraction and increment exactly
  (`DirectoryNavigator.Wrap16`). The methods are specified by the pure
  `NextIndex` and `PreviousIndex`. The lemmas are stated in terms of those two
  functions.
- **Row formatting** (`view/view.go`). `FormatRow` pads a row's left and right
  texts to a given width. It fails, returning `""` and an error, when no
  separating space fits.
- **Keystroke dispatch** (`input/input.go`). `Read` reads once into a zeroed
  5-byte buffer. When the read returns data and no error, it makes one
  navigator call per `j`, `k`, `\n` or `h` byte. The model records those calls
  as a trace of `Input.Command`s.

Some of the repository's tests expect behaviour that the modelled files do not
implement. The model follows the code:

- `SetWorkingDirectory` returns no error and stores the path as given, so a
  trailing slash is not stripped.
- `Entry` has only a name and a size, with no directory flag.
- `Size` is computed synchronously, with no channel or index.
- A regular-file child's entry gets size 0. Its size comes from
  `Size(path + "/" + name)`, and a file cannot be listed
  (`Directory.EntriesShape`).

Two consequences of the code as written are proved rather than hidden:

- With exactly 65536 entries, the length truncates to 0 and the selection
  never leaves the first entry (`DirectoryNavigator.NextStuckWhenLengthTruncates`).
- `Read` dispatches all five buffer bytes, not only the first `bytesRead`
  (`Input.WholeBufferDispatched`).

Files: `optional.dfy` (Option), `filetree.dfy` (abstract filesystem),
`directory.dfy`, `navigator.dfy`, `view.dfy`, `input.dfy`.

## Model

| member | source | states |
|---|---|---|
| FileTree.JoinComponents | filesystem/directory/directory.go:24 | `path + "/" + name` names the components of `path` followed by `name`, for any name a listing can return |
| FileTree.EmptyPathFails | filesystem/directory/directory.go:19 | listing the empty path fails whatever the filesystem, as opening `""` does, so `Size("")` is 0 and `Entries("")` is empty |
| FileTree.ChildPath | filesystem/directory/directory.go:22-24 | in a filesystem with valid, distinct names, the path built for a listed child resolves to exactly that child |
| Directory.Size | filesystem/directory/directory.go:17-30 | the loop over the listing, which recurses through `path + "/" + name` for directory children, returns `SizeAt(fs, path)`: the listing's total, or 0 when `ReadDir` fails |
| Directory.Entries | filesystem/directory/directory.go:32-41 | the slots filled one by one hold exactly `EntriesAt(fs, path)`: one entry per child, in listing order, named after it |
| Directory.ListingOf | filesystem/directory/directory.go:19-22 | the size of a path is the total of the listing the loop walks, which is empty when `ReadDir` fails |
| Directory.ChildSize | filesystem/directory/directory.go:24 | the recursive call's path names the child, so its size is the child's subtree total; the child is structurally below the directory, so the recursion ends |
| Directory.SizeAtNode | filesystem/directory/directory.go:17-19 | the size of a path is the size of the node it names, and 0 when it names nothing |
| Directory.UnreadableSizeIsZero | filesystem/directory/directory.go:19 | a listing that cannot be read (missing path, a file, an unreadable directory) gives size 0 and no entries |
| Directory.EmptyDirectory | filesystem/directory/directory.go:22-29 | an empty directory has size 0 and no entries |
| Directory.ListingSizeAppend | filesystem/directory/directory.go:22-28 | the size of a listing is additive over any split of the listing |
| Directory.DirectorySizeAdditive | filesystem/directory/directory.go:22-28 | a directory whose listing is `a + b` has the size of `a`'s directory plus that of `b`'s |
| Directory.TreeSizeIsFileTotal | filesystem/directory/directory.go:22-28 | the size of a tree equals the sum of the reported sizes of all non-directories at every depth below it |
| Directory.ListingSizeIsFileTotal | filesystem/directory/directory.go:22-28 | the same for a listing, child by child |
| Directory.SizeNonNegative | filesystem/directory/directory.go:17-29 | when no file below has a negative size, the size is non-negative |
| Directory.EntriesShape | filesystem/directory/directory.go:37-39 | as many entries as listed children, each named after its child; a directory child gets its recursive total, any other child 0 |
| Directory.EntrySizeIsChildPathSize | filesystem/directory/directory.go:38 | each entry's size is what `Size` gives for `path + "/" + name` |
| Directory.SampleTreeSize | test/directory_test.go:15-18 | a tree shaped like the test's sample directory totals 512020, by the definition and by the file-total reference alike |
| DirectoryNavigator.NextIndex | filesystem/directory/navigator.go:38-42 | the next index is the old one or its `uint16` successor; below 65536 entries and with `index <= len` it increases by exactly one iff `len - index > 1`, otherwise it is unchanged; the range invariant is kept |
| DirectoryNavigator.PreviousIndex | filesystem/directory/navigator.go:46-50 | the previous index decreases by one iff it is positive; otherwise it stays 0 |
| DirectoryNavigator.Navigator.constructor | filesystem/directory/navigator.go:5-9 | the zero navigator has an empty path, no entries, index 0, and satisfies the invariant |
| DirectoryNavigator.Navigator.CurrentPath | filesystem/directory/navigator.go:12-14 | returns the stored path, reading only the object |
| DirectoryNavigator.Navigator.SelectedIndex | filesystem/directory/navigator.go:17-19 | returns the stored index, reading only the object |
| DirectoryNavigator.Navigator.Entries | filesystem/directory/navigator.go:23-25 | returns the stored entries, reading only the object and not the filesystem |
| DirectoryNavigator.Navigator.SetWorkingDirectory | filesystem/directory/navigator.go:30-34 | stores the path verbatim, sets the entries to `EntriesAt(fs, path)`, resets the index to 0; the invariant holds when there are fewer than 65536 entries |
| DirectoryNavigator.Navigator.SelectNextEntry | filesystem/directory/navigator.go:38-42 | changes only `selectedIndex`, to `NextIndex(len(entries), old index)`, and keeps the invariant |
| DirectoryNavigator.Navigator.SelectPreviousEntry | filesystem/directory/navigator.go:46-50 | changes only `selectedIndex`, to `PreviousIndex(old index)`, and keeps the invariant |
| DirectoryNavigator.EmptyStaysAtZero | filesystem/directory/navigator.go:39 | with no entries, neither selection call moves the index off 0 |
| DirectoryNavigator.NextAtLastIsIdempotent | filesystem/directory/navigator.go:39 | with the last entry selected, any number of `SelectNextEntry` calls changes nothing |
| DirectoryNavigator.NextTimesClamps | filesystem/directory/navigator.go:38-42 | `k` calls of `SelectNextEntry` from a valid state give `min(index + k, len - 1)`, or 0 when there are no entries |
| DirectoryNavigator.PreviousTimesClamps | filesystem/directory/navigator.go:46-50 | `k` calls of `SelectPreviousEntry` give `max(index - k, 0)` |
| DirectoryNavigator.ReplayKeepsInRange | filesystem/directory/navigator.go:38-50 | any sequence of selection calls keeps `len < 65536` and `index < len` (or `index == 0`) |
| DirectoryNavigator.PreviousUndoesNext | filesystem/directory/navigator.go:38-50 | a step down that moved is undone by a step up |
| DirectoryNavigator.NextUndoesPrevious | filesystem/directory/navigator.go:38-50 | from a valid state, a step up from a positive index is undone by a step down |
| DirectoryNavigator.NextStuckWhenLengthTruncates | filesystem/directory/navigator.go:39 | with exactly 65536 entries the `uint16` length is 0, and no number of `SelectNextEntry` calls moves the index |
| DirectoryNavigator.ResetScenario | test/navigator_test.go:45-51 | with at least two entries (and fewer than 65536), one `SelectNextEntry` after `SetWorkingDirectory` selects index 1, and setting the same directory again gives the same path and entries and index 0 |
| View.FormatRow | view/view.go:34-51 | succeeds iff `size - len(Right) > len(Left)`; on failure the text is `""` and the error carries `size`, `Left` and `Right`; on success the text is `Left`, then `size - len(Left) - len(Right)` spaces, then `Right`, of length `size` |
| View.Digits | view/view.go:42-43 | the `%d` digits of a natural number denote it, and start with `0` only when they are exactly `"0"` |
| View.Decimal | view/view.go:42-43 | the `%d` text of an integer: a minus sign exactly when it is negative, then digits that denote its magnitude, with no leading zero (only `"0"` itself starts with `0`) |
| View.MessageReadsBack | view/view.go:42-43 | the error text reads back: the fixed prefix `view: formatting row to a size of `, the decimal size, ` with '`, the left value, `' and '`, the right value, then `' values is impossible` |
| View.FormatRowReadsBack | view/view.go:47-50 | a formatted row starts with `Left`, ends with `Right`, and has only spaces, at least one, between them |
| View.FormatRowExample | test/view_test.go:24-32 | `left`/`right` in 10 characters is `"left right"` |
| View.FormatRowRightAligned | test/view_test.go:73-81 | an empty left text right-aligns `right`: `"     right"` |
| View.FormatRowTooNarrow | test/view_test.go:35-52 | at exactly the combined width the result is `""`, with the error message the test expects |
| Input.CommandFor | input/input.go:26-35 | a byte triggers a call exactly when it is `j`, `k`, `\n` or `h` |
| Input.Key | input/input.go:26-35 | each navigator command has a key that the switch maps back to it |
| Input.KeyIsOnlyTrigger | input/input.go:26-35 | a byte triggers a command exactly when it is that command's key, so no other byte triggers it |
| Input.KeysOfDispatch | input/input.go:25-36 | the calls for any bytes are the commands of exactly its key bytes, in order; all other bytes are skipped |
| Input.Dispatch | input/input.go:25-36 | the switch makes at most one call per byte |
| Input.Receive | input/input.go:19-20 | after the read, the buffer holds what the source stored, followed by the zeros of `make` |
| Input.Read | input/input.go:18-38 | the calls made equal `Trace(source)`: none unless the read returned data and no error, else one per matching byte of the whole buffer, in order |
| Input.DispatchAppend | input/input.go:25 | bytes are dispatched in order: the calls for `a + b` are those for `a`, then those for `b` |
| Input.ZerosDispatchNothing | input/input.go:19 | the zero padding of the buffer triggers no call |
| Input.DispatchKeys | input/input.go:26-35 | dispatching the keys of any command sequence gives back that sequence |
| Input.NothingWithoutData | input/input.go:24 | when the read returns no byte, or returns an error, no navigator method is called |
| Input.AtMostFiveCalls | input/input.go:19-25 | at most five calls per `Read` |
| Input.ReadKeys | test/double/reader_double.go:7-9 | for a source that copies a string into the buffer, zero to five keys reach the navigator as exactly their commands, in order |
| Input.SingleKeys | test/input_test.go:20-58 | `j`, `k`, `\n`, `h` read alone call `SelectNextEntry`, `SelectPreviousEntry`, `IntoSelectedEntry`, `ToParentDirectory` |
| Input.WholeBufferDispatched | input/input.go:24-25 | bytes past `bytesRead` are dispatched too: two stored `j`s with a count of 1 cause two calls |

## Left out

- Directory.Size: sizes are unbounded integers. The model does not model the wrap-around of Go's `int64` accumulator past 2^63-1.
- Directory.Entries: entries are values. The model does not capture that Go stores pointers (`[]*Entry`), and nothing aliases or mutates them afterwards.
- View.FormatRow: `size` is an unbounded integer. The model does not capture the wrap-around of `size - len(Right)` near the `int` minimum, which sends Go down the success path, nor `fmt`'s refusal to pad to widths of about 10^7 or more, where Go prints a `%!(NOVERB)` text with a nil error.
- View.FormatRow: lengths count characters. Go's `len` counts bytes while `%-Ns` pads by runes, so the model matches Go only for ASCII text.
- The real `ioutil.ReadDir`: its sorting by name is taken to be the order of the tree's listings, and `Lstat` and symlinks are not modelled (a symlink is just a non-directory child). Path lookup skips empty segments and gives `.` and `..` no special meaning; a listing never returns them as names (`FileTree.ValidName`). The root of the tree stands for both `/` and the process's working directory, so a relative path resolves from the root exactly as the absolute path with the same names does. The empty path names nothing, so listing it fails, as in Go. An unreadable directory (`Unreadable`) cannot be listed or traversed.
- `IntoSelectedEntry` and `ToParentDirectory` have no implementation in navigator.go. `Read` only records them as commands, so the errors it discards are not modelled. In this snapshot `directory.Navigator` does not satisfy `input.Navigator`, so the trace is not applied to the navigator class.
- Behaviour that only the tests describe, with no implementation in the modelled files: error returns and trailing-slash stripping in `SetWorkingDirectory`, `RemoveSelectedEntry`, `SelectFirstEntry`/`SelectLastEntry`, the viewport window, pending calculations, free-space queries, and the channel-based asynchronous `Size`.
- The sample directory's actual contents are not available. `Directory.SampleTree` is a tree of that shape chosen to total 512020.
- view/format.go (human-readable sizes use floating point), the `Viewer` interface and termbox drawing, purge.go and liberator.go (process startup, terminal setup, goroutines and channels).
