/** The recall log behind the Up and Down keys: class `History` of
    shyt/sh.py, with the pure functions that specify its methods.

    A log holds the submitted lines, a cursor and a wrap mode.  The cursor
    ranges over `0 ..= |entries|`; the position `|entries|` is the "fresh
    line" sentinel, where the log yields the empty string. */
module Recall {

  /** The abstract value of a History object. */
  datatype Log = Log(entries: seq<string>, cursor: int, circular: bool)

  /** No entry is the empty line and no entry repeats the one before it. */
  predicate Deduplicated(entries: seq<string>) {
    (forall i :: 0 <= i < |entries| ==> entries[i] != "") &&
    (forall i :: 0 < i < |entries| ==> entries[i - 1] != entries[i])
  }

  /** The invariant every History keeps. */
  predicate Valid(h: Log) {
    0 <= h.cursor <= |h.entries| && Deduplicated(h.entries)
  }

  /** The log a new History starts with. */
  function Fresh(circular: bool): (h: Log)
    ensures Valid(h) && h.entries == [] && h.circular == circular
  {
    Log([], 0, circular)
  }

  /** What `_get` yields: the entry under the cursor, or "" off the ends. */
  function At(h: Log): string {
    if h.cursor < |h.entries| && h.cursor >= 0 then h.entries[h.cursor] else ""
  }

  /** The cursor move of `prev`: towards older entries, wrapping from the
      oldest entry to the sentinel in circular mode, clamping at 0 otherwise. */
  function Back(h: Log): (r: Log)
    ensures r.entries == h.entries && r.circular == h.circular
    ensures Valid(h) ==> Valid(r)
  {
    if h.circular && h.cursor == 0 then h.(cursor := |h.entries|)
    else if h.cursor > 0 then h.(cursor := h.cursor - 1)
    else h
  }

  /** The cursor move of `next`: towards newer entries, wrapping from the
      sentinel to the oldest entry in circular mode, clamping otherwise. */
  function Forward(h: Log): (r: Log)
    ensures r.entries == h.entries && r.circular == h.circular
    ensures Valid(h) ==> Valid(r)
  {
    if h.circular && h.cursor == |h.entries| then h.(cursor := 0)
    else if h.cursor < |h.entries| then h.(cursor := h.cursor + 1)
    else h
  }

  /** The effect of `push(s)`. */
  function Record(h: Log, s: string): (r: Log)
    ensures r.circular == h.circular
    ensures r.entries == h.entries || r.entries == h.entries + [s]
    ensures Valid(h) ==> Valid(r)
  {
    if s != "" && (h.entries == [] || h.entries[|h.entries| - 1] != s) then
      h.(entries := h.entries + [s], cursor := |h.entries| + 1)
    else h
  }

  // ---------------------------------------------------------------------
  // Properties of a single operation

  /** In a valid log "" is exactly the sentinel's value, and anything else
      that is recalled is a stored entry. */
  lemma AtEmptyOnlyAtSentinel(h: Log)
    requires Valid(h)
    ensures At(h) == "" <==> h.cursor == |h.entries|
    ensures At(h) != "" ==> At(h) in h.entries
  {
  }

  /** `push` skips the empty line and a repeat of the last entry, and
      otherwise appends exactly that line and parks the cursor past the end. */
  lemma RecordRule(h: Log, s: string)
    ensures Record(h, s) == h <==> s == "" || (h.entries != [] && h.entries[|h.entries| - 1] == s)
    ensures Record(h, s) != h ==>
      Record(h, s).entries == h.entries + [s] && Record(h, s).cursor == |Record(h, s).entries|
  {
  }

  /** Pushing the same line twice is the same as pushing it once. */
  lemma RecordIdempotent(h: Log, s: string)
    ensures Record(Record(h, s), s) == Record(h, s)
  {
  }

  /** The wrap and clamp rules of `prev` at the oldest position. */
  lemma BackAtOldest(h: Log)
    requires h.cursor == 0
    ensures h.circular ==> Back(h).cursor == |h.entries| && At(Back(h)) == ""
    ensures !h.circular ==> Back(h) == h
  {
  }

  /** The wrap and clamp rules of `next` at the sentinel. */
  lemma ForwardAtSentinel(h: Log)
    requires h.cursor == |h.entries|
    ensures h.circular ==> Forward(h).cursor == 0
    ensures !h.circular ==> Forward(h) == h && At(Forward(h)) == ""
  {
  }

  /** `prev` and `next` undo each other: always in circular mode, and in
      clamping mode whenever the first move did not hit an end. */
  lemma BackForwardInverse(h: Log)
    requires Valid(h)
    ensures h.circular ==> Forward(Back(h)) == h && Back(Forward(h)) == h
    ensures !h.circular && h.cursor > 0 ==> Forward(Back(h)) == h
    ensures !h.circular && h.cursor < |h.entries| ==> Back(Forward(h)) == h
  {
  }

  // ---------------------------------------------------------------------
  // Any sequence of operations

  /** One call on a History. */
  datatype Op = PushOp(line: string) | PrevOp | NextOp

  function Perform(h: Log, op: Op): Log {
    match op
    case PushOp(s) => Record(h, s)
    case PrevOp => Back(h)
    case NextOp => Forward(h)
  }

  function Apply(h: Log, ops: seq<Op>): Log
    decreases |ops|
  {
    if ops == [] then h else Apply(Perform(h, ops[0]), ops[1..])
  }

  /** Whatever calls are made, the cursor stays within `0 ..= |entries|`,
      the entries stay non-empty and free of adjacent repeats, the wrap mode
      never changes, and entries are only ever added at the end. */
  lemma {:induction false} ApplyKeepsValid(h: Log, ops: seq<Op>)
    requires Valid(h)
    ensures Valid(Apply(h, ops))
    ensures Apply(h, ops).circular == h.circular
    ensures h.entries <= Apply(h, ops).entries
    decreases |ops|
  {
    if ops != [] {
      ApplyKeepsValid(Perform(h, ops[0]), ops[1..]);
    }
  }

  // ---------------------------------------------------------------------
  // Repeated prev / next

  /** `k` calls of `prev`. */
  function Backs(h: Log, k: nat): Log
    decreases k
  {
    if k == 0 then h else Backs(Back(h), k - 1)
  }

  /** `k` calls of `next`. */
  function Forwards(h: Log, k: nat): Log
    decreases k
  {
    if k == 0 then h else Forwards(Forward(h), k - 1)
  }

  lemma {:induction false} BacksCompose(h: Log, a: nat, b: nat)
    ensures Backs(h, a + b) == Backs(Backs(h, a), b)
    decreases a
  {
    if a > 0 {
      BacksCompose(Back(h), a - 1, b);
    }
  }

  lemma {:induction false} ForwardsCompose(h: Log, a: nat, b: nat)
    ensures Forwards(h, a + b) == Forwards(Forwards(h, a), b)
    decreases a
  {
    if a > 0 {
      ForwardsCompose(Forward(h), a - 1, b);
    }
  }

  /** Away from the ends, `k` calls of `prev` step the cursor back by `k`. */
  lemma {:induction false} BacksWithoutWrap(h: Log, k: nat)
    requires 0 <= h.cursor && k <= h.cursor
    ensures Backs(h, k) == h.(cursor := h.cursor - k)
    decreases k
  {
    if k > 0 {
      BacksWithoutWrap(Back(h), k - 1);
    }
  }

  /** Away from the ends, `k` calls of `next` step the cursor forward by `k`. */
  lemma {:induction false} ForwardsWithoutWrap(h: Log, k: nat)
    requires h.cursor + k <= |h.entries|
    ensures Forwards(h, k) == h.(cursor := h.cursor + k)
    decreases k
  {
    if k > 0 {
      ForwardsWithoutWrap(Forward(h), k - 1);
    }
  }

  /** In circular mode the positions form a ring of `|entries| + 1` slots
      (the entries and the sentinel): that many calls of `prev` come back. */
  lemma CircularBackCycle(h: Log)
    requires Valid(h) && h.circular
    ensures Backs(h, |h.entries| + 1) == h
  {
    var n, c := |h.entries|, h.cursor;
    var bottom, top := h.(cursor := 0), h.(cursor := n);
    BacksCompose(h, c, n + 1 - c);
    BacksWithoutWrap(h, c);
    assert Backs(bottom, n + 1 - c) == Backs(top, n - c);
    BacksWithoutWrap(top, n - c);
    assert top.(cursor := n - (n - c)) == h;
  }

  /** Likewise `|entries| + 1` calls of `next` come back in circular mode. */
  lemma CircularForwardCycle(h: Log)
    requires Valid(h) && h.circular
    ensures Forwards(h, |h.entries| + 1) == h
  {
    var n, c := |h.entries|, h.cursor;
    var bottom, top := h.(cursor := 0), h.(cursor := n);
    ForwardsCompose(h, n - c, c + 1);
    ForwardsWithoutWrap(h, n - c);
    assert Forwards(top, c + 1) == Forwards(bottom, c);
    ForwardsWithoutWrap(bottom, c);
    assert bottom.(cursor := 0 + c) == h;
  }

  /** In clamping mode, calling `prev` at least `cursor` times reaches the
      oldest entry and then keeps returning it (or "" when the log is empty). */
  lemma {:induction false} LinearBackClamps(h: Log, k: nat)
    requires Valid(h) && !h.circular && k >= h.cursor
    ensures Backs(h, k).cursor == 0
    ensures At(Backs(h, k)) == if h.entries == [] then "" else h.entries[0]
    decreases k
  {
    if k > 0 {
      if h.cursor == 0 {
        assert Back(h) == h;
      }
      LinearBackClamps(Back(h), k - 1);
    }
  }

  /** In clamping mode, calling `next` often enough reaches the sentinel and
      then keeps returning "". */
  lemma {:induction false} LinearForwardClamps(h: Log, k: nat)
    requires Valid(h) && !h.circular && h.cursor + k >= |h.entries|
    ensures Forwards(h, k).cursor == |h.entries|
    ensures At(Forwards(h, k)) == ""
    decreases k
  {
    if k > 0 {
      if h.cursor == |h.entries| {
        assert Forward(h) == h;
      }
      LinearForwardClamps(Forward(h), k - 1);
    }
  }

  /** In circular mode, one `prev` from the sentinel recalls the newest entry. */
  lemma CircularBackFromSentinel(h: Log)
    requires Valid(h) && h.circular && h.cursor == |h.entries| && h.entries != []
    ensures At(Back(h)) == h.entries[|h.entries| - 1]
  {
  }

  /** After pushing "a" then "b" into a clamping log, two `prev` calls recall
      "a" and one `next` after them recalls "b". */
  lemma RecallScenario()
    ensures var h := Record(Record(Fresh(false), "a"), "b");
      var up1 := Back(h); var up2 := Back(up1); var down := Forward(up2);
      At(up1) == "b" && At(up2) == "a" && At(down) == "b"
  {
  }

  // ---------------------------------------------------------------------
  // The class itself

  /** A History object: `circular` is fixed, `index` and `buffer` change. */
  class History {
    const circular: bool
    var index: int
    var buffer: seq<string>

    /** The abstract value of this object. */
    function State(): Log
      reads this
    {
      Log(buffer, index, circular)
    }

    constructor (circular: bool)
      ensures State() == Fresh(circular)
    {
      this.circular := circular;
      index := 0;
      buffer := [];
    }

    method Next() returns (r: string)
      modifies this
      ensures State() == Forward(old(State()))
      ensures r == At(State())
    {
      if circular && index == |buffer| {
        index := 0;
      } else if index < |buffer| {
        index := index + 1;
      }
      r := At(State());
    }

    method Prev() returns (r: string)
      modifies this
      ensures State() == Back(old(State()))
      ensures r == At(State())
    {
      if circular && index == 0 {
        index := |buffer|;
      } else if index > 0 {
        index := index - 1;
      }
      r := At(State());
    }

    method Push(s: string)
      modifies this
      ensures State() == Record(old(State()), s)
    {
      if s != "" && (buffer == [] || buffer[|buffer| - 1] != s) {
        buffer := buffer + [s];
        index := |buffer|;
      }
    }
  }
}
