# shyt line editor — a Dafny model

This project models the terminal line editor of `shyt/sh.py`. Four modules cover it:

- **Keys** (`keys.dfy`) turns one decoded read into an integer key code, as `Shell._get_key` does. It returns −65/−66 (Up/Down) for a three-character read ending in 'A'/'B', such as the escape sequences ESC [ A and ESC [ B, and the code of the last character otherwise.
- **Recall** (`recall.dfy`) is class `History`. It keeps a list of submitted lines, a cursor and a fixed wrap mode.
  - Its methods `Next`, `Prev` and `Push` update the fields in place.
  - Each method is proved equal to a pure function on the datatype `Log`: `Forward`, `Back` and `Record`.
  - Lemmas about those functions establish the recall rules. These cover the bounds invariant, the de-duplication of pushed lines, wrap against clamp at the ends, `prev`/`next` as inverses, and full cycles in circular mode.
- **Terminal** (`terminal.dfy`) is a small screen model: one line of cells and a cursor column. It is used to state the redraw discipline of `_clear_buf`: erasing the old width and writing the new text leaves no stale characters.
- **LineEditor** (`line_editor.dfy`) is class `Shell`.
  - The per-key `match` of `start` is the pure function `Step`. `Shell.HandleKey` is proved to perform exactly that step on the output, the command sink and the history object.
  - `Session` folds `Step` over a finite list of reads. `Shell.Run` is that fold as a loop.
  - Lemmas state what each key does, and that the history invariant holds over any run of keys. They also show that the visible line stays `prompt + buffer` under the arrows, Enter, Delete and printable characters, and what typing a word then Enter does.

The output stream is modelled as the string of everything written. `_exec` is modelled as the `"     Execute …"` line it writes plus a list of the lines handed to it.

Quirks of `sh.py` the model keeps:

- Up and Down erase and redraw even when the old and new buffers are both empty, because `_get` never returns `None` and the `is not None` tests are always true (sh.py:77, :84).
- Tab writes `"tab"` and leaves the buffer as it was (sh.py:89-90). After Tab the visible line is therefore not the prompt followed by the buffer, which `LineEditor.TabBreaksScreen` exhibits.
- A typed `'C'` or `'D'` decodes to 67 or 68, the codes of Right and Left, and is dropped (sh.py:98-99). A typed `'A'` or `'B'` is appended, because only three-character reads become arrows (sh.py:56-58).
- `_exec` only writes `"     Execute <line>"` (sh.py:42-44). The file has no command table.

## Model

| member | source | states |
|---|---|---|
| Keys.Decode | shyt/sh.py:53-62 | for any non-empty read, the code is negative exactly when the read has three characters ending in 'A' or 'B', and is then minus that character's code; otherwise it is the code of the last character; the result is always Up, Down or a character code |
| Keys.DecodeSingleRoundTrip | shyt/sh.py:59-60 | a one-character read decodes to a code that converts back to the same character |
| Keys.ArrowsOnlyFromEscapes | shyt/sh.py:56-58 | Up comes only from a three-character read ending in 'A', and Down only from one ending in 'B', in both directions |
| Keys.DecodeExamples | shyt/sh.py:53-62 | ESC [ A is Up, ESC [ B is Down, ESC [ C and ESC [ D are 67 and 68, and a lone 'A' is 65 |
| Recall.Fresh | shyt/sh.py:6-9 | a new history is valid and empty, with the given wrap mode |
| Recall.Back | shyt/sh.py:24-28 | `prev` keeps the entries and the wrap mode, and keeps the cursor within bounds |
| Recall.Forward | shyt/sh.py:17-21 | `next` keeps the entries and the wrap mode, and keeps the cursor within bounds |
| Recall.Record | shyt/sh.py:31-34 | `push` keeps the wrap mode, leaves the entries as they were or appends exactly the pushed line, and keeps the log free of empty lines and adjacent repeats |
| Recall.AtEmptyOnlyAtSentinel | shyt/sh.py:11-15 | in a valid log, `_get` yields "" exactly at the position past the end, and otherwise yields a stored entry |
| Recall.RecordRule | shyt/sh.py:31-34 | `push` changes nothing exactly when the line is empty or repeats the last entry; otherwise it appends the line and moves the cursor past the end |
| Recall.RecordIdempotent | shyt/sh.py:32 | pushing the same line twice is the same as pushing it once |
| Recall.BackAtOldest | shyt/sh.py:25-28 | at position 0, circular `prev` wraps to the past-the-end position and yields "", and clamping `prev` changes nothing |
| Recall.ForwardAtSentinel | shyt/sh.py:18-21 | at the past-the-end position, circular `next` wraps to 0, and clamping `next` changes nothing and yields "" |
| Recall.BackForwardInverse | shyt/sh.py:17-29 | in circular mode `next` after `prev` and `prev` after `next` both restore the log; in clamping mode each does so unless the first move hit an end |
| Recall.ApplyKeepsValid | shyt/sh.py:8-34 | after any sequence of `push`, `prev` and `next` calls, the cursor is within bounds, the entries have no empty line and no adjacent repeat, the wrap mode is unchanged, and old entries are a prefix of the new ones |
| Recall.BacksCompose | shyt/sh.py:24-29 | `a + b` calls of `prev` are `a` calls followed by `b` calls |
| Recall.ForwardsCompose | shyt/sh.py:17-22 | `a + b` calls of `next` are `a` calls followed by `b` calls |
| Recall.BacksWithoutWrap | shyt/sh.py:27-28 | away from position 0, `k` calls of `prev` move the cursor back by exactly `k` |
| Recall.ForwardsWithoutWrap | shyt/sh.py:20-21 | away from the end, `k` calls of `next` move the cursor forward by exactly `k` |
| Recall.CircularBackCycle | shyt/sh.py:24-29 | in circular mode, calling `prev` once more than there are entries returns to the starting state, so the positions form a ring that includes the empty position |
| Recall.CircularForwardCycle | shyt/sh.py:17-22 | in circular mode, calling `next` once more than there are entries returns to the starting state |
| Recall.LinearBackClamps | shyt/sh.py:24-29 | in clamping mode, enough calls of `prev` reach position 0 and keep yielding the oldest entry, or "" when there is none, without wrapping |
| Recall.LinearForwardClamps | shyt/sh.py:17-22 | in clamping mode, enough calls of `next` reach the past-the-end position and keep yielding "" |
| Recall.CircularBackFromSentinel | shyt/sh.py:24-29 | in circular mode, one `prev` from the past-the-end position recalls the newest entry |
| Recall.RecallScenario | shyt/sh.py:17-34 | after pushing "a" then "b" into a clamping history, `prev` twice recalls "b" then "a", and one `next` then recalls "b" |
| Recall.History.constructor | shyt/sh.py:6-9 | a new object holds the empty log with its cursor at 0 and the given wrap mode |
| Recall.History.Next | shyt/sh.py:17-22 | the object's new state is `Forward` of its old state, and the result is the entry now under the cursor, or "" |
| Recall.History.Prev | shyt/sh.py:24-29 | the object's new state is `Back` of its old state, and the result is the entry now under the cursor, or "" |
| Recall.History.Push | shyt/sh.py:31-34 | the object's new state is `Record` of its old state and the pushed line |
| Terminal.RedrawShows | shyt/sh.py:47-50 | when the screen shows some text, writing CR, that text's width in spaces, CR, then printable new text shows exactly the new text, with no stale characters, whether it is shorter or longer |
| Recall.At | shyt/sh.py:11-15 | no contract: the definition of `_get`, the entry under the cursor or "" out of range; its meaning is stated by `Recall.AtEmptyOnlyAtSentinel` |
| Terminal.Erase | shyt/sh.py:47-50 | no contract: the text `_clear_buf(width)` writes, CR, `width` spaces, CR; its effect on the screen is stated by `Terminal.RedrawShows` |
| LineEditor.ExecLine | shyt/sh.py:43 | no contract: the line `_exec` writes, five spaces, "Execute", the command and a newline; `LineEditor.SubmitKeepsScreen` states that the newline after it leaves only the prompt |
| LineEditor.Session | shyt/sh.py:72-110 | no contract: the inner loop over a finite list of reads, one decoded key per read, each applied by `Step` from the buffer and history the previous key left; its properties are `LineEditor.SessionKeepsHistory`, `LineEditor.SessionKeepsScreen` and `LineEditor.Shell.Run` |
| LineEditor.Step | shyt/sh.py:74-109 | one key keeps the wrap mode and the history invariant; the history either keeps its entries or gains exactly the old buffer; a line is handed to `_exec` exactly when the key is Enter and the buffer is non-empty, and then the buffer becomes empty and that line is the newest entry; keys other than Up, Down and Enter leave the history alone |
| LineEditor.SessionKeepsHistory | shyt/sh.py:72-110 | over any run of reads, the history stays valid and keeps its wrap mode, old entries stay a prefix, at most one line is executed per read, and every executed line is non-empty and is in the history afterwards |
| LineEditor.TypedKey | shyt/sh.py:106-109 | a character code outside the dispatch table appends exactly that character to the buffer, echoes exactly it, and changes nothing else |
| LineEditor.InertKeys | shyt/sh.py:89-99 | Tab writes "tab", Right and Left write nothing, and none of them changes the buffer, the history or the sink |
| LineEditor.DeleteKey | shyt/sh.py:100-105 | on a non-empty buffer, Delete drops exactly its last character and redraws over the old width; on an empty buffer it writes nothing; it never touches the history or the sink |
| LineEditor.EnterKey | shyt/sh.py:91-97 | Enter always ends with an empty buffer; on a non-empty line it pushes it, hands it to `_exec` once, makes it the newest entry and writes a newline, the Execute line and the prompt; on an empty line it writes a newline and the prompt only |
| LineEditor.RecallKeys | shyt/sh.py:75-88 | Up and Down set the buffer to what `prev` and `next` return, update the history the same way, and always erase the old width and write prompt plus the new buffer |
| LineEditor.RedrawKeepsScreen | shyt/sh.py:78-81 | a redraw from prompt plus one buffer to prompt plus a printable other buffer shows the latter |
| LineEditor.SubmitKeepsScreen | shyt/sh.py:91-97 | after Enter, with or without an Execute line, the screen shows just the prompt on a fresh line |
| LineEditor.StepKeepsScreen | shyt/sh.py:74-109 | after an arrow, Enter, Delete or a printable key, the screen shows exactly prompt plus the new buffer, and the buffer and history stay printable |
| LineEditor.SessionKeepsScreen | shyt/sh.py:72-110 | over any run of such keys, the screen keeps showing exactly prompt plus the buffer |
| LineEditor.RunKeepsScreen | shyt/sh.py:69-110 | starting on a fresh line with a printable prompt and printable stored lines, the prompt followed by what any run of arrows, Enter, Delete and printable keys writes leaves the screen showing exactly the prompt followed by the buffer |
| LineEditor.TabBreaksScreen | shyt/sh.py:89-90 | after Tab on an empty line, the screen does not show prompt plus buffer, because "tab" is echoed but not added to the buffer |
| LineEditor.TypingBuildsLine | shyt/sh.py:106-109 | typing a word of ordinary printable characters, one read each, builds exactly that word in the buffer and echoes exactly it, with no history change and nothing executed |
| LineEditor.SubmitTyped | shyt/sh.py:91-97 | Enter after reads that built a non-empty line empties the buffer, executes exactly that line once, and pushes it |
| LineEditor.TypeAndSubmit | shyt/sh.py:72-110 | typing a non-empty word such as "hi" and pressing Enter executes exactly that word once, leaves an empty buffer, and makes the word the newest history entry |
| LineEditor.Shell.constructor | shyt/sh.py:38-40 | a new shell has the given prompt and history, has written nothing and has executed nothing |
| LineEditor.Shell.Write | shyt/sh.py:69 | `sys.stdout.write`: the output gains exactly the written text at its end |
| LineEditor.Shell.Exec | shyt/sh.py:42-44 | `_exec` writes the Execute line for the command and hands the command to the sink |
| LineEditor.Shell.ClearBuf | shyt/sh.py:47-50 | `_clear_buf(l)` writes CR, `l` spaces and CR |
| LineEditor.Shell.Redraw | shyt/sh.py:78-81 | the redraw shared by Up, Down (sh.py:85-88) and Delete (sh.py:102-105): the output gains the erase of the old width, then the prompt, then the new buffer |
| LineEditor.Shell.Submit | shyt/sh.py:91-97 | the Enter branch has the effect `Step` gives for Enter, on the output, the sink, the history object and the buffer |
| LineEditor.Shell.HandleKey | shyt/sh.py:73-110 | one pass of the inner loop has exactly the effect `Step` gives on the output, the sink, the history object and the buffer |
| LineEditor.Shell.Run | shyt/sh.py:68-110 | writing the prompt and then dispatching one key per read has exactly the effect of `Session` over those reads, starting from an empty buffer |

## Left out

- Real I/O is not modelled: `os.read` of up to three bytes, `.decode()`, `sys.stdin.fileno` and `sys.stdout.write`/`flush`. Each read is given as an already decoded, non-empty string, and the output is the string of everything written.
- Raw-mode handling is not modelled: `tty.setcbreak` and the `try`/`finally` restore through `termios.tcsetattr` are operating-system calls.
- The two `while True` loops never end. They are modelled as a fold over a finite list of reads. The outer loop's body runs once, because the inner loop has no `break`.
- Undecodable input is not modelled: a UTF-8 decoding error raised by `.decode()`, and a read that splits a multi-byte character.
- Keys.Decode: the empty read is a precondition. At end of input (a hang-up or a closed stdin) `os.read` returns no bytes, `match len(k)` falls to `case _`, and `ord(k[-1])` raises IndexError (sh.py:62), which leaves `start` through its `finally` (sh.py:111-112). The model does not describe that exit.
- Terminal: control characters other than CR and LF, tab stops, line wrap at the terminal width, and wide characters are not part of the screen model. The screen lemmas therefore cover printable ASCII only.
- LineEditor.Shell.constructor: takes its prompt and history as arguments. The source's defaults, prompt `"> "` and a fresh circular `History()`, are what a caller would pass.
- A command table, argument splitting and a "command not found" report are not part of this source, so they are not modelled.
