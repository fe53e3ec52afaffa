/** The line editor of class `Shell` (shyt/sh.py): what one key does to the
    edit buffer, the history, the output and the executed lines, and the
    editing loop of `start` over a finite sequence of reads.

    The output stream is modelled as the string of everything written to it,
    and the command sink `_exec` as the list of lines handed to it (besides
    the "Execute" line it writes). */
module LineEditor {
  import opened Keys
  import opened Recall
  import opened Terminal

  /** The outcome of one or more keys: the new edit buffer, the new history
      log, the text written, and the lines handed to `_exec`, in order. */
  datatype Effect = Effect(buf: string, log: Log, written: string, executed: seq<string>)

  /** What `_exec(cmd)` writes. */
  function ExecLine(cmd: string): string {
    "     Execute " + cmd + "\n"
  }

  /** The effect of one key on the edit buffer `buf`, following the `match`
      in `start`.  `_get` never yields `None`, so Up and Down always erase
      and redraw, even when nothing changes. */
  function Step(prompt: string, buf: string, h: Log, key: int): (e: Effect)
    requires IsKeyCode(key)
    ensures e.log.circular == h.circular
    ensures Valid(h) ==> Valid(e.log)
    ensures e.log.entries == h.entries || e.log.entries == h.entries + [buf]
    ensures e.executed == (if key == Enter && buf != "" then [buf] else [])
    ensures e.executed != [] ==> e.buf == "" && e.log.entries != [] && e.log.entries[|e.log.entries| - 1] == buf
    ensures key != Up && key != Down && key != Enter ==> e.log == h
  {
    if key == Up then
      var back := Back(h);
      var line := At(back);
      Effect(line, back, Erase(|buf| + |prompt|) + prompt + line, [])
    else if key == Down then
      var fwd := Forward(h);
      var line := At(fwd);
      Effect(line, fwd, Erase(|buf| + |prompt|) + prompt + line, [])
    else if key == Tab then
      Effect(buf, h, "tab", [])
    else if key == Enter then
      if buf != "" then Effect("", Record(h, buf), "\n" + ExecLine(buf) + prompt, [buf])
      else Effect(buf, h, "\n" + prompt, [])
    else if key == Right || key == Left then
      Effect(buf, h, "", [])
    else if key == Delete then
      if buf != "" then
        var shorter := buf[..|buf| - 1];
        Effect(shorter, h, Erase(|buf| + |prompt|) + prompt + shorter, [])
      else Effect(buf, h, "", [])
    else
      Effect(buf + [key as char], h, [key as char], [])
  }

  /** The effect of the keys decoded from `chunks`, one chunk per key, starting
      from the buffer `buf` and the log `h`. */
  function Session(prompt: string, buf: string, h: Log, chunks: seq<string>): Effect
    requires forall i :: 0 <= i < |chunks| ==> chunks[i] != []
    decreases |chunks|
  {
    if chunks == [] then Effect(buf, h, "", [])
    else
      var before := Session(prompt, buf, h, chunks[..|chunks| - 1]);
      var last := Step(prompt, before.buf, before.log, Decode(chunks[|chunks| - 1]));
      Effect(last.buf, last.log, before.written + last.written, before.executed + last.executed)
  }

  /** Regrouping a concatenation.  Kept as a lemma so that the loop of
      `Shell.Run` receives exactly the two instances it needs rather than
      asserting them inline, which makes its verification far costlier. */
  lemma Associative<T>(a: seq<T>, b: seq<T>, c: seq<T>)
    ensures (a + b) + c == a + (b + c)
  {
  }

  /** One more key extends the session by one step. */
  lemma SessionSnoc(prompt: string, buf: string, h: Log, chunks: seq<string>, i: nat)
    requires i < |chunks| && forall j :: 0 <= j < |chunks| ==> chunks[j] != []
    ensures var before := Session(prompt, buf, h, chunks[..i]);
      var last := Step(prompt, before.buf, before.log, Decode(chunks[i]));
      Session(prompt, buf, h, chunks[..i + 1]) ==
        Effect(last.buf, last.log, before.written + last.written, before.executed + last.executed)
  {
    assert chunks[..i + 1][..i] == chunks[..i];
  }

  /** Over any run of keys the history stays valid and keeps its wrap mode,
      entries are only ever added at the end, at most one line is executed
      per key, and every executed line is non-empty and is in the history
      afterwards. */
  lemma {:induction false} SessionKeepsHistory(prompt: string, buf: string, h: Log, chunks: seq<string>)
    requires forall i :: 0 <= i < |chunks| ==> chunks[i] != []
    ensures var e := Session(prompt, buf, h, chunks);
      e.log.circular == h.circular &&
      (Valid(h) ==> Valid(e.log)) &&
      h.entries <= e.log.entries &&
      |e.executed| <= |chunks| &&
      forall i :: 0 <= i < |e.executed| ==> e.executed[i] != "" && e.executed[i] in e.log.entries
    decreases |chunks|
  {
    if chunks != [] {
      var init := chunks[..|chunks| - 1];
      var before := Session(prompt, buf, h, init);
      SessionKeepsHistory(prompt, buf, h, init);
      var last := Step(prompt, before.buf, before.log, Decode(chunks[|chunks| - 1]));
      var e := Session(prompt, buf, h, chunks);
      assert e == Effect(last.buf, last.log, before.written + last.written, before.executed + last.executed);
      assert before.log.entries <= e.log.entries;
      forall i | 0 <= i < |e.executed| ensures e.executed[i] != "" && e.executed[i] in e.log.entries {
        if i < |before.executed| {
          assert e.executed[i] == before.executed[i];
          assert before.executed[i] in before.log.entries;
        } else {
          assert e.executed[i] == last.executed[i - |before.executed|];
          assert e.executed[i] == e.log.entries[|e.log.entries| - 1];
        }
      }
    }
  }

  // ---------------------------------------------------------------------
  // What each kind of key does

  /** Any key outside the dispatch table is typed: its character is appended
      to the buffer and echoed, and nothing else happens. */
  lemma TypedKey(prompt: string, buf: string, h: Log, key: int)
    requires IsCharCode(key)
    requires key != Tab && key != Enter && key != Right && key != Left && key != Delete
    ensures Step(prompt, buf, h, key) == Effect(buf + [key as char], h, [key as char], [])
  {
  }

  /** Tab writes "tab"; Left and Right write nothing; none of them touches
      the buffer, the history or the sink. */
  lemma InertKeys(prompt: string, buf: string, h: Log)
    ensures Step(prompt, buf, h, Tab) == Effect(buf, h, "tab", [])
    ensures Step(prompt, buf, h, Right) == Effect(buf, h, "", [])
    ensures Step(prompt, buf, h, Left) == Effect(buf, h, "", [])
  {
  }

  /** Delete drops the last character and redraws when there is one, and
      does nothing at all on an empty buffer. */
  lemma DeleteKey(prompt: string, buf: string, h: Log)
    ensures var e := Step(prompt, buf, h, Delete);
      e.log == h && e.executed == [] &&
      (buf == "" ==> e.buf == "" && e.written == "") &&
      (buf != "" ==> buf == e.buf + [buf[|buf| - 1]] &&
                     e.written == Erase(|prompt| + |buf|) + prompt + e.buf)
  {
  }

  /** Enter on a non-empty line records it, hands it to the sink once and
      starts an empty line; on an empty line it only moves to a new prompt. */
  lemma EnterKey(prompt: string, buf: string, h: Log)
    ensures var e := Step(prompt, buf, h, Enter);
      e.buf == "" &&
      (buf != "" ==> e.log == Record(h, buf) && e.executed == [buf] &&
                     e.log.entries[|e.log.entries| - 1] == buf &&
                     e.written == "\n" + ExecLine(buf) + prompt) &&
      (buf == "" ==> e.log == h && e.executed == [] && e.written == "\n" + prompt)
  {
  }

  /** Up and Down replace the buffer by the line recalled by `prev` and
      `next`, always erasing the old line's width and redrawing. */
  lemma RecallKeys(prompt: string, buf: string, h: Log)
    ensures var e := Step(prompt, buf, h, Up);
      e.log == Back(h) && e.buf == At(Back(h)) && e.executed == [] &&
      e.written == Erase(|prompt| + |buf|) + prompt + e.buf
    ensures var e := Step(prompt, buf, h, Down);
      e.log == Forward(h) && e.buf == At(Forward(h)) && e.executed == [] &&
      e.written == Erase(|prompt| + |buf|) + prompt + e.buf
  {
  }

  // ---------------------------------------------------------------------
  // The redraw discipline

  /** Keys under which the visible line keeps showing prompt and buffer: the
      arrows, Enter, Delete, and printable ASCII characters. */
  predicate Tame(key: int) {
    key == Up || key == Down || key == Enter || key == Delete || 32 <= key <= 126
  }

  /** Every stored line is printable. */
  predicate Recallable(h: Log) {
    forall i :: 0 <= i < |h.entries| ==> Printable(h.entries[i])
  }

  /** A redraw from prompt and `buf` to prompt and `after` shows the latter. */
  lemma RedrawKeepsScreen(prompt: string, buf: string, after: string, s: Screen)
    requires Printable(prompt) && Printable(after) && Shows(s, prompt + buf)
    ensures Shows(Emit(s, Erase(|prompt| + |buf|) + prompt + after), prompt + after)
  {
    assert |prompt + buf| == |prompt| + |buf|;
    assert Erase(|prompt| + |buf|) + prompt + after == Erase(|prompt + buf|) + (prompt + after);
    PrintableAppend(prompt, after);
    RedrawShows(s, prompt + buf, prompt + after);
  }

  /** Enter leaves a fresh line showing only the prompt. */
  lemma SubmitKeepsScreen(prompt: string, buf: string, s: Screen)
    requires Printable(prompt)
    ensures buf != "" ==> Shows(Emit(s, "\n" + ExecLine(buf) + prompt), prompt)
    ensures Shows(Emit(s, "\n" + prompt), prompt)
  {
    if buf != "" {
      assert "\n" + ExecLine(buf) + prompt == ("\n" + "     Execute " + buf) + "\n" + prompt;
      NewlineForgets(s, "\n" + "     Execute " + buf, prompt);
    }
    assert "\n" + prompt == [] + "\n" + prompt;
    NewlineForgets(s, [], prompt);
    FreshLineShows(prompt);
  }

  /** After a tame key the screen shows the prompt followed by the new
      buffer, whichever branch ran. */
  lemma StepKeepsScreen(prompt: string, buf: string, h: Log, key: int, s: Screen)
    requires Printable(prompt) && Printable(buf) && Recallable(h) && Tame(key)
    requires Shows(s, prompt + buf)
    ensures var e := Step(prompt, buf, h, key);
      Shows(Emit(s, e.written), prompt + e.buf) && Printable(e.buf) && Recallable(e.log)
  {
    if key == Up || key == Down {
      RecallKeys(prompt, buf, h);
      var e := Step(prompt, buf, h, key);
      assert Printable(e.buf);
      RedrawKeepsScreen(prompt, buf, e.buf, s);
    } else if key == Enter {
      EnterKey(prompt, buf, h);
      SubmitKeepsScreen(prompt, buf, s);
      assert prompt + "" == prompt;
    } else if key == Delete {
      DeleteKey(prompt, buf, h);
      if buf != "" {
        var e := Step(prompt, buf, h, key);
        assert Printable(e.buf);
        RedrawKeepsScreen(prompt, buf, e.buf, s);
      }
    } else if key == Right || key == Left {
      InertKeys(prompt, buf, h);
    } else {
      TypedKey(prompt, buf, h, key);
      var c := [key as char];
      EchoShows(s, prompt + buf, c);
      assert prompt + buf + c == prompt + (buf + c);
      PrintableAppend(buf, c);
    }
  }

  /** Over any run of tame keys the screen keeps showing the prompt followed
      by the buffer after each key. */
  lemma {:induction false} SessionKeepsScreen(prompt: string, buf: string, h: Log, chunks: seq<string>, s: Screen)
    requires forall i :: 0 <= i < |chunks| ==> chunks[i] != [] && Tame(Decode(chunks[i]))
    requires Printable(prompt) && Printable(buf) && Recallable(h)
    requires Shows(s, prompt + buf)
    ensures var e := Session(prompt, buf, h, chunks);
      Shows(Emit(s, e.written), prompt + e.buf) && Printable(e.buf) && Recallable(e.log)
    decreases |chunks|
  {
    if chunks != [] {
      var init := chunks[..|chunks| - 1];
      var before := Session(prompt, buf, h, init);
      SessionKeepsScreen(prompt, buf, h, init, s);
      var key := Decode(chunks[|chunks| - 1]);
      var last := Step(prompt, before.buf, before.log, key);
      StepKeepsScreen(prompt, before.buf, before.log, key, Emit(s, before.written));
      EmitAppend(s, before.written, last.written);
    }
  }

  /** The discipline for a whole run of `start`: on a fresh line, with a
      printable prompt and printable stored lines, writing the prompt and then
      the output of any run of tame keys leaves the screen showing exactly the
      prompt followed by the buffer. */
  lemma RunKeepsScreen(prompt: string, h: Log, chunks: seq<string>)
    requires forall i :: 0 <= i < |chunks| ==> chunks[i] != [] && Tame(Decode(chunks[i]))
    requires Printable(prompt) && Recallable(h)
    ensures var e := Session(prompt, "", h, chunks);
      Shows(Emit(Screen([], 0), prompt + e.written), prompt + e.buf)
  {
    var blank := Screen([], 0);
    FreshLineShows(prompt);
    var s := Emit(blank, prompt);
    assert prompt + "" == prompt;
    SessionKeepsScreen(prompt, "", h, chunks, s);
    EmitAppend(blank, prompt, Session(prompt, "", h, chunks).written);
  }

  /** The Tab key breaks the discipline: it echoes "tab" without adding it
      to the buffer, so the screen no longer shows prompt and buffer. */
  lemma TabBreaksScreen()
    ensures var s := Screen("> ", 2);
      var e := Step("> ", "", Fresh(true), Tab);
      Shows(s, "> ") && e.buf == "" && !Shows(Emit(s, e.written), "> " + e.buf)
  {
    var s := Screen("> ", 2);
    EchoShows(s, "> ", "tab");
    var r := Emit(s, "tab");
    assert r.col == 5;
  }

  // ---------------------------------------------------------------------
  // A scenario

  /** A character that the dispatch table does not claim is typed. */
  predicate Ordinary(c: char) {
    ' ' <= c <= '~' && c != 'C' && c != 'D'
  }

  /** The reads of typing `w`, one character per read. */
  function Keystrokes(w: string): (r: seq<string>)
    ensures |r| == |w| && forall i :: 0 <= i < |r| ==> r[i] != []
  {
    if w == [] then [] else Keystrokes(w[..|w| - 1]) + [[w[|w| - 1]]]
  }

  /** Typing a word of ordinary characters builds exactly that word in the
      buffer and echoes it, without touching the history or the sink. */
  lemma {:induction false} TypingBuildsLine(prompt: string, h: Log, w: string)
    requires forall i :: 0 <= i < |w| ==> Ordinary(w[i])
    ensures var e := Session(prompt, "", h, Keystrokes(w));
      e.buf == w && e.written == w && e.log == h && e.executed == []
    decreases |w|
  {
    if w != [] {
      var n := |w| - 1;
      var init, c, ks := w[..n], w[n], Keystrokes(w);
      assert ks[..n] == Keystrokes(init) && ks[n] == [c];
      TypingBuildsLine(prompt, h, init);
      TypedKey(prompt, init, h, c as int);
      assert init + [c] == w;
    }
  }

  /** Enter after the reads of a typed non-empty line submits that line. */
  lemma SubmitTyped(prompt: string, h: Log, w: string, typing: seq<string>)
    requires w != "" && forall j :: 0 <= j < |typing| ==> typing[j] != []
    requires var typed := Session(prompt, "", h, typing);
      typed.buf == w && typed.log == h && typed.executed == []
    ensures forall j :: 0 <= j < |typing + ["\n"]| ==> (typing + ["\n"])[j] != []
    ensures var e := Session(prompt, "", h, typing + ["\n"]);
      e.buf == "" && e.executed == [w] && e.log == Record(h, w)
  {
    var chunks := typing + ["\n"];
    assert chunks[..|chunks| - 1] == typing;
    assert Decode(chunks[|chunks| - 1]) == Enter;
    EnterKey(prompt, w, h);
  }

  /** Typing a non-empty word (such as "hi") and Enter hands the word to the
      sink once, records it as the newest entry, and leaves an empty buffer. */
  lemma TypeAndSubmit(prompt: string, h: Log, w: string)
    requires w != "" && forall i :: 0 <= i < |w| ==> Ordinary(w[i])
    ensures var e := Session(prompt, "", h, Keystrokes(w) + ["\n"]);
      e.buf == "" && e.executed == [w] && e.log == Record(h, w) &&
      e.log.entries[|e.log.entries| - 1] == w
  {
    TypingBuildsLine(prompt, h, w);
    SubmitTyped(prompt, h, w, Keystrokes(w));
    RecordRule(h, w);
  }

  // ---------------------------------------------------------------------
  // The class

  /** A Shell: a fixed prompt and history, the output written so far and the
      lines handed to `_exec` so far. */
  class Shell {
    const prompt: string
    const history: History
    var out: string
    var executed: seq<string>

    constructor (prompt: string, history: History)
      ensures this.prompt == prompt && this.history == history
      ensures out == "" && executed == []
    {
      this.prompt := prompt;
      this.history := history;
      out := "";
      executed := [];
    }

    method Write(s: string)
      modifies this`out
      ensures out == old(out) + s
    {
      out := out + s;
    }

    /** `_exec`: report the line and hand it to the sink. */
    method Exec(cmd: string)
      modifies this`out, this`executed
      ensures out == old(out) + ExecLine(cmd)
      ensures executed == old(executed) + [cmd]
    {
      Write(ExecLine(cmd));
      executed := executed + [cmd];
    }

    /** `_clear_buf(width)`. */
    method ClearBuf(width: nat)
      modifies this`out
      ensures out == old(out) + Erase(width)
    {
      Write("\r");
      Write(Spaces(width));
      Write("\r");
    }

    /** The redraw shared by Up, Down and Delete: erase the old line of the
      given width, then write the prompt and the new buffer. */
    method Redraw(width: nat, line: string)
      modifies this`out
      ensures out == old(out) + Erase(width) + prompt + line
    {
      ClearBuf(width);
      Write(prompt);
      Write(line);
    }

    /** The Enter branch: a new line, then record and execute a non-empty
      buffer, then the prompt for the next line. */
    method Submit(buf: string) returns (next: string)
      modifies this`out, this`executed, history
      ensures var e := Step(prompt, buf, old(history.State()), Enter);
        next == e.buf && history.State() == e.log &&
        out == old(out) + e.written && executed == old(executed) + e.executed
    {
      Write("\n");
      next := buf;
      if buf != "" {
        history.Push(buf);
        Exec(buf);
        next := "";
      }
      Write(prompt);
    }

    /** One pass of the inner loop of `start`: dispatch the key and return
      the new edit buffer. */
    method HandleKey(buf: string, key: int) returns (next: string)
      requires IsKeyCode(key)
      modifies this`out, this`executed, history
      ensures var e := Step(prompt, buf, old(history.State()), key);
        next == e.buf && history.State() == e.log &&
        out == old(out) + e.written && executed == old(executed) + e.executed
    {
      if key == Up {
        next := history.Prev();
        Redraw(|buf| + |prompt|, next);
      } else if key == Down {
        next := history.Next();
        Redraw(|buf| + |prompt|, next);
      } else if key == Tab {
        Write("tab");
        next := buf;
      } else if key == Enter {
        next := Submit(buf);
      } else if key == Right || key == Left {
        next := buf;
      } else if key == Delete {
        next := buf;
        if buf != "" {
          next := buf[..|buf| - 1];
          Redraw(|buf| + |prompt|, next);
        }
      } else {
        var c := key as char;
        next := buf + [c];
        Write([c]);
      }
    }

    /** `start` with its terminal set-up left out: write the prompt, then
      decode and dispatch one key per read. */
    method Run(chunks: seq<string>) returns (buf: string)
      requires forall i :: 0 <= i < |chunks| ==> chunks[i] != []
      modifies this`out, this`executed, history
      ensures var e := Session(prompt, "", old(history.State()), chunks);
        buf == e.buf && history.State() == e.log &&
        out == old(out) + prompt + e.written && executed == old(executed) + e.executed
    {
      ghost var h0, out0, executed0 := history.State(), out, executed;
      Write(prompt);
      buf := "";
      var i := 0;
      assert chunks[..0] == [];
      while i < |chunks|
        invariant 0 <= i <= |chunks|
        invariant var e := Session(prompt, "", h0, chunks[..i]);
          buf == e.buf && history.State() == e.log &&
          out == out0 + prompt + e.written && executed == executed0 + e.executed
      {
        ghost var before := Session(prompt, "", h0, chunks[..i]);
        ghost var outBefore, executedBefore := out, executed;
        var key := Decode(chunks[i]);
        ghost var last := Step(prompt, buf, history.State(), key);
        buf := HandleKey(buf, key);
        SessionSnoc(prompt, "", h0, chunks, i);
        assert out == outBefore + last.written;
        assert outBefore == (out0 + prompt) + before.written;
        Associative(out0 + prompt, before.written, last.written);
        Associative(executed0, before.executed, last.executed);
        i := i + 1;
      }
      assert chunks[..i] == chunks;
    }
  }
}
