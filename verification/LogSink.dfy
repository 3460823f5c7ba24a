// The rotating log file of desktop/src/logger.ts: `createFileSink`.
module LogSink {
  import opened Sequences

  newtype Byte = b: int | 0 <= b < 256

  type Bytes = seq<Byte>

  const NEWLINE: Byte := 10
  const MAX_LOG_BYTES := 1024 * 1024

  // The descriptor, the size the sink keeps, and the two files; a file may not exist.
  datatype State = State(open: bool, size: nat, current: Option<Bytes>, previous: Option<Bytes>)

  function Content(file: Option<Bytes>): Bytes {
    if file.Some? then file.value else []
  }

  // What is written for a line: the line, ended by one line break.
  function Ended(line: Bytes): Bytes {
    if line != [] && line[|line| - 1] == NEWLINE then line else line + [NEWLINE]
  }

  // While the file is open its size is known.
  predicate Valid(s: State) {
    s.open ==> s.current.Some? && s.size == |s.current.value|
  }

  function Opened(s: State): State {
    State(true, |Content(s.current)|, Some(Content(s.current)), s.previous)
  }

  function Rotated(s: State): State {
    Opened(State(false, s.size, None, s.current))
  }

  function Written(s: State, line: Bytes, maxBytes: int): State {
    var buf := Ended(line);
    var ready := if s.open then s else Opened(s);
    var target := if ready.size > 0 && ready.size + |buf| > maxBytes then Rotated(ready) else ready;
    target.(current := Some(Content(target.current) + buf), size := target.size + |buf|)
  }

  function Closed(s: State): State { s.(open := false) }

  class FileSink {
    const maxBytes: int
    var open: bool
    var size: nat
    var current: Option<Bytes>
    var previous: Option<Bytes>

    // The sink over whatever files are there.
    constructor (current: Option<Bytes>, previous: Option<Bytes>, maxBytes: int := MAX_LOG_BYTES)
      ensures Now() == State(false, 0, current, previous) && this.maxBytes == maxBytes
    {
      this.maxBytes := maxBytes;
      this.current, this.previous := current, previous;
      open, size := false, 0;
    }

    function Now(): State
      reads this
    {
      State(open, size, current, previous)
    }

    method Open()
      modifies this
      ensures Now() == Opened(old(Now()))
    {
      if current == None {
        current := Some([]);
      }
      open := true;
      size := |current.value|;
    }

    method Rotate()
      modifies this
      ensures Now() == Rotated(old(Now()))
    {
      open := false;
      previous := None;
      current, previous := None, current;
      Open();
    }

    method Write(line: Bytes)
      requires Valid(Now())
      modifies this
      ensures Now() == Written(old(Now()), line, maxBytes)
      ensures Valid(Now())
    {
      if !open {
        Open();
      }
      var buf := Ended(line);
      if size > 0 && size + |buf| > maxBytes {
        Rotate();
      }
      current := Some(Content(current) + buf);
      size := size + |buf|;
    }

    method Close()
      requires Valid(Now())
      modifies this
      ensures Now() == Closed(old(Now()))
      ensures Valid(Now())
    {
      open := false;
    }
  }

  // ---- Runs ----

  datatype Op = Write(line: Bytes) | Close

  function After(s: State, op: Op, maxBytes: int): State {
    if op.Write? then Written(s, op.line, maxBytes) else Closed(s)
  }

  function Run(s: State, ops: seq<Op>, maxBytes: int): State {
    if ops == [] then s else After(Run(s, ops[..|ops| - 1], maxBytes), ops[|ops| - 1], maxBytes)
  }

  // The pieces ever written: what the files held at first, then one piece for each line.
  function History(s: State, ops: seq<Op>): seq<Bytes> {
    if ops == [] then [Content(s.previous), Content(s.current)]
    else
      var before := History(s, ops[..|ops| - 1]);
      var last := ops[|ops| - 1];
      if last.Write? then before + [Ended(last.line)] else before
  }

  // The two files hold the last pieces, whole and in order: `previous` those from i up to j,
  // `current` those from j on. Pieces are missing only if the files together exceed the
  // limit.
  predicate Holds(s: State, pieces: seq<Bytes>, maxBytes: int, i: int, j: int) {
    && 0 <= i <= j <= |pieces|
    && Content(s.previous) == Flatten(pieces[i..j])
    && Content(s.current) == Flatten(pieces[j..])
    && (i == 0 || |Content(s.previous)| + |Content(s.current)| > maxBytes)
  }

  ghost predicate Retained(s: State, pieces: seq<Bytes>, maxBytes: int) {
    exists i, j :: Holds(s, pieces, maxBytes, i, j)
  }

  lemma FlattenOne<T>(block: seq<T>)
    ensures Flatten([block]) == block
  {
    assert [block][1..] == [];
    assert Flatten<T>([]) == [];
  }

  lemma WriteHolds(s: State, line: Bytes, maxBytes: int, pieces: seq<Bytes>, i: int, j: int)
    requires Valid(s) && Holds(s, pieces, maxBytes, i, j)
    ensures Retained(Written(s, line, maxBytes), pieces + [Ended(line)], maxBytes)
  {
    var buf, n := Ended(line), |pieces|;
    var more := pieces + [buf];
    var t := Written(s, line, maxBytes);
    FlattenOne(buf);
    if |Content(s.current)| > 0 && |Content(s.current)| + |buf| > maxBytes {
      assert more[j..n] == pieces[j..] && more[n..] == [buf];
      assert Holds(t, more, maxBytes, j, n);
    } else {
      FlattenAppend(pieces[j..], [buf]);
      assert more[i..j] == pieces[i..j] && more[j..] == pieces[j..] + [buf];
      assert Holds(t, more, maxBytes, i, j);
    }
  }

  // Over every run of writes and closes, from any two files: the files hold the most recent
  // pieces, no line is split, and nothing is lost until the files together pass the limit.
  lemma {:induction false} RunRetains(s: State, ops: seq<Op>, maxBytes: int)
    requires Valid(s)
    ensures Valid(Run(s, ops, maxBytes))
    ensures Retained(Run(s, ops, maxBytes), History(s, ops), maxBytes)
  {
    if ops == [] {
      var pieces := History(s, ops);
      FlattenOne(pieces[0]);
      FlattenOne(pieces[1]);
      assert pieces[0..1] == [pieces[0]] && pieces[1..] == [pieces[1]];
      assert Holds(s, pieces, maxBytes, 0, 1);
    } else {
      var front, last := ops[..|ops| - 1], ops[|ops| - 1];
      RunRetains(s, front, maxBytes);
      var t, pieces := Run(s, front, maxBytes), History(s, front);
      var i, j :| Holds(t, pieces, maxBytes, i, j);
      if last.Write? {
        WriteHolds(t, last.line, maxBytes, pieces, i, j);
      } else {
        assert Holds(Closed(t), pieces, maxBytes, i, j);
      }
    }
  }

  predicate IsSuffix(a: Bytes, b: Bytes) { |a| <= |b| && b[|b| - |a|..] == a }

  // The older file followed by the newer one ends `all`, and is all of it or longer than
  // the limit.
  predicate KeepsSuffix(s: State, all: Bytes, maxBytes: int) {
    var kept := Content(s.previous) + Content(s.current);
    IsSuffix(kept, all) && (kept == all || |kept| > maxBytes)
  }

  lemma HoldsSuffix(s: State, pieces: seq<Bytes>, maxBytes: int, i: int, j: int)
    requires Holds(s, pieces, maxBytes, i, j)
    ensures KeepsSuffix(s, Flatten(pieces), maxBytes)
  {
    FlattenCut(pieces, i);
    FlattenCut(pieces[i..], j - i);
    assert pieces[i..][..j - i] == pieces[i..j] && pieces[i..][j - i..] == pieces[j..];
    var kept := Content(s.previous) + Content(s.current);
    var lost := Flatten(pieces[..i]);
    assert Flatten(pieces) == lost + kept;
    assert (lost + kept)[|lost|..] == kept;
    assert i == 0 ==> lost == [] && lost + kept == kept;
  }

  // The same in bytes, over every run.
  lemma RunKeepsSuffix(s: State, ops: seq<Op>, maxBytes: int)
    requires Valid(s)
    ensures KeepsSuffix(Run(s, ops, maxBytes), Flatten(History(s, ops)), maxBytes)
  {
    RunRetains(s, ops, maxBytes);
    var end, pieces := Run(s, ops, maxBytes), History(s, ops);
    var i, j :| Holds(end, pieces, maxBytes, i, j);
    HoldsSuffix(end, pieces, maxBytes, i, j);
  }

  lemma FlattenCut<T>(pieces: seq<seq<T>>, i: nat)
    requires i <= |pieces|
    ensures Flatten(pieces) == Flatten(pieces[..i]) + Flatten(pieces[i..])
  {
    var front, back := pieces[..i], pieces[i..];
    assert pieces == front + back;
    FlattenAppend(front, back);
  }

  // A line as it is written: whole, ended by a line break, with one added only where it lacked
  // one.
  predicate IsPiece(line: Bytes, piece: Bytes) {
    && piece != [] && piece[|piece| - 1] == 10
    && (piece == line || (piece == line + [10] && (line == [] || line[|line| - 1] != 10)))
  }

  // The lines written in a run, in order.
  function Lines(ops: seq<Op>): seq<Bytes> {
    if ops == [] then []
    else if ops[0].Write? then [ops[0].line] + Lines(ops[1..])
    else Lines(ops[1..])
  }

  lemma {:induction false} LinesMore(ops: seq<Op>, op: Op)
    ensures Lines(ops + [op]) == if op.Write? then Lines(ops) + [op.line] else Lines(ops)
  {
    if ops == [] {
      assert [op][1..] == [];
    } else {
      assert (ops + [op])[1..] == ops[1..] + [op];
      LinesMore(ops[1..], op);
    }
  }

  // What the two files held, then every line as it is written.
  predicate ArePieces(was: Bytes, held: Bytes, lines: seq<Bytes>, pieces: seq<Bytes>) {
    && |pieces| == 2 + |lines| && pieces[0] == was && pieces[1] == held
    && forall k :: 0 <= k < |lines| ==> IsPiece(lines[k], pieces[k + 2])
  }

  lemma OneMorePiece(was: Bytes, held: Bytes, lines: seq<Bytes>, pieces: seq<Bytes>, line: Bytes)
    requires ArePieces(was, held, lines, pieces)
    ensures ArePieces(was, held, lines + [line], pieces + [Ended(line)])
  {
    assert IsPiece(line, Ended(line));
  }

  // The pieces of a run.
  lemma {:induction false} HistoryIs(s: State, ops: seq<Op>)
    ensures ArePieces(Content(s.previous), Content(s.current), Lines(ops), History(s, ops))
  {
    if ops != [] {
      var front, last := ops[..|ops| - 1], ops[|ops| - 1];
      HistoryIs(s, front);
      assert ops == front + [last];
      LinesMore(front, last);
      if last.Write? {
        OneMorePiece(Content(s.previous), Content(s.current), Lines(front), History(s, front), last.line);
      }
    }
  }

  // After a write the current file ends with the line, and it respects the limit unless it
  // holds nothing but that line.
  lemma WriteBound(s: State, line: Bytes, piece: Bytes, maxBytes: int)
    requires Valid(s) && IsPiece(line, piece)
    ensures var file := Content(Written(s, line, maxBytes).current);
            IsSuffix(piece, file) && (|file| <= maxBytes || file == piece)
  {
    assert piece == Ended(line);
    var t := Written(s, line, maxBytes);
    var before := if s.size > 0 then Content(s.current) else [];
    assert [] + piece == piece;
  }
}
