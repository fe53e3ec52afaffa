/** A minimal model of the terminal line the editor draws on, used to state
    the redraw discipline: after every key the visible line is the prompt
    followed by the edit buffer, with nothing stale after it.

    The screen is the line the cursor is on (its cells) and the cursor
    column.  A carriage return moves to column 0, a newline starts a fresh
    empty line (output post-processing turns it into CR LF), and any other
    character overwrites the cell under the cursor and moves right. */
module Terminal {

  datatype Screen = Screen(line: seq<char>, col: nat)

  predicate Sane(s: Screen) {
    s.col <= |s.line|
  }

  /** The screen after writing one character. */
  function Put(s: Screen, c: char): (r: Screen)
    ensures Sane(r)
  {
    if c == '\r' then Screen(s.line, 0)
    else if c == '\n' then Screen([], 0)
    else if s.col < |s.line| then Screen(s.line[s.col := c], s.col + 1)
    else Screen(s.line + [c], |s.line| + 1)
  }

  /** The screen after writing a string. */
  function Emit(s: Screen, w: string): Screen
    decreases |w|
  {
    if w == [] then s else Emit(Put(s, w[0]), w[1..])
  }

  function Spaces(n: nat): (r: string)
    ensures |r| == n && forall i :: 0 <= i < n ==> r[i] == ' '
  {
    if n == 0 then "" else Spaces(n - 1) + " "
  }

  /** What `_clear_buf(width)` writes: back to column 0, blank `width`
      cells, back to column 0 again. */
  function Erase(width: nat): string {
    "\r" + Spaces(width) + "\r"
  }

  /** Text with no carriage return or newline. */
  predicate Plain(w: string) {
    forall i :: 0 <= i < |w| ==> w[i] != '\r' && w[i] != '\n'
  }

  /** Text of printable ASCII characters, each one cell wide. */
  predicate Printable(w: string) {
    forall i :: 0 <= i < |w| ==> ' ' <= w[i] <= '~'
  }

  /** The screen shows exactly `t`: the line starts with `t`, only blanks
      follow it, and the cursor stands right after `t`. */
  predicate Shows(s: Screen, t: string) {
    s.col == |t| <= |s.line| &&
    (forall i :: 0 <= i < |t| ==> s.line[i] == t[i]) &&
    (forall i :: |t| <= i < |s.line| ==> s.line[i] == ' ')
  }

  /** Writing in two parts is writing the whole. */
  lemma {:induction false} EmitAppend(s: Screen, a: string, b: string)
    ensures Emit(s, a + b) == Emit(Emit(s, a), b)
    decreases |a|
  {
    if a == [] {
      assert a + b == b;
    } else {
      assert (a + b)[0] == a[0];
      assert (a + b)[1..] == a[1..] + b;
      EmitAppend(Put(s, a[0]), a[1..], b);
    }
  }

  /** Whatever was on the line, a newline leaves only what follows it. */
  lemma NewlineForgets(s: Screen, a: string, t: string)
    ensures Emit(s, a + "\n" + t) == Emit(Screen([], 0), t)
  {
    EmitAppend(s, a + "\n", t);
    EmitAppend(s, a, "\n");
  }

  /** The cells `Emit(s, w)` leaves when `w` is plain text: `w` overwrites
      the cells from the cursor on, extending the line if needed, and the
      cursor ends right after it. */
  predicate Overwritten(s: Screen, w: string, r: Screen) {
    Sane(s) &&
    r.col == s.col + |w| &&
    |r.line| == (if |s.line| < r.col then r.col else |s.line|) &&
    (forall i :: 0 <= i < s.col ==> r.line[i] == s.line[i]) &&
    (forall i :: s.col <= i < r.col ==> r.line[i] == w[i - s.col]) &&
    (forall i :: r.col <= i < |r.line| ==> r.line[i] == s.line[i])
  }

  lemma {:induction false} EmitPlain(s: Screen, w: string)
    requires Sane(s) && Plain(w)
    ensures Overwritten(s, w, Emit(s, w))
    decreases |w|
  {
    if w != [] {
      var p := Put(s, w[0]);
      assert Overwritten(s, [w[0]], p);
      assert Plain(w[1..]) by {
        forall i | 0 <= i < |w[1..]| ensures w[1..][i] != '\r' && w[1..][i] != '\n' {
          assert w[1..][i] == w[i + 1];
        }
      }
      EmitPlain(p, w[1..]);
      var r := Emit(p, w[1..]);
      forall i | s.col <= i < r.col ensures r.line[i] == w[i - s.col] {
        if i > s.col {
          assert r.line[i] == w[1..][i - p.col];
        }
      }
    }
  }

  lemma PrintableAppend(a: string, b: string)
    requires Printable(a) && Printable(b)
    ensures Printable(a + b)
  {
    forall i | 0 <= i < |a + b| ensures ' ' <= (a + b)[i] <= '~' {
      if i >= |a| {
        assert (a + b)[i] == b[i - |a|];
      }
    }
  }

  /** Printable text is plain. */
  lemma PrintableIsPlain(w: string)
    requires Printable(w)
    ensures Plain(w)
  {
    forall i | 0 <= i < |w| ensures w[i] != '\r' && w[i] != '\n' {
      assert ' ' <= w[i];
    }
  }

  /** Writing printable text on a fresh line shows that text. */
  lemma FreshLineShows(t: string)
    requires Printable(t)
    ensures Shows(Emit(Screen([], 0), t), t)
  {
    PrintableIsPlain(t);
    EmitPlain(Screen([], 0), t);
  }

  /** Appending printable text to what the screen shows shows the longer text. */
  lemma EchoShows(s: Screen, t: string, w: string)
    requires Shows(s, t) && Printable(w)
    ensures Shows(Emit(s, w), t + w)
  {
    PrintableIsPlain(w);
    EmitPlain(s, w);
  }

  /** The redraw primitive: when the screen shows `before`, erasing its width
      and writing printable `after` shows `after`, whether `after` is shorter
      or longer, with no stale characters left. */
  lemma {:induction false} RedrawShows(s: Screen, before: string, after: string)
    requires Shows(s, before) && Printable(after)
    ensures Shows(Emit(s, Erase(|before|) + after), after)
  {
    var n := |before|;
    var blank := Spaces(n);
    EmitAppend(s, Erase(n), after);
    EmitAppend(s, "\r" + blank, "\r");
    EmitAppend(s, "\r", blank);
    var s1 := Emit(s, "\r");
    assert s1 == Screen(s.line, 0);
    assert Plain(blank);
    EmitPlain(s1, blank);
    var s2 := Emit(s1, blank);
    var s3 := Emit(s2, "\r");
    assert s3 == Screen(s2.line, 0);
    assert forall i :: 0 <= i < |s3.line| ==> s3.line[i] == ' ';
    PrintableIsPlain(after);
    EmitPlain(s3, after);
  }
}
