/**
 Replayable request bodies (common/body_storage.go): the two storages behind one interface, as
 state steps and as classes that update their cursor in place. A byte buffer handed to Read is
 its length; a file and a byte slice are sequences of bytes.
 */
module BodyStorage {
  import opened Options

  /** What a storage is, whichever kind: its content, its cursor and whether it was closed. */
  datatype State = State(data: seq<bv8>, pos: nat, closed: bool)

  datatype Error = EndOfFile | StorageClosed | BadSeek | BrokenFile

  /** Observed by the caller of an operation. */
  datatype Observation =
    | Got(chunk: seq<bv8>)
    | At(position: int)
    | Content(all: seq<bv8>)
    | Length(size: int)
    | Closed
    | Failed(error: Error)

  datatype Op = Read(room: nat) | Seek(offset: int, whence: int) | Bytes | Size | Close

  function Min(a: int, b: int): int { if a <= b then a else b }

  /** Up to `room` bytes from the cursor on. */
  function Chunk(s: State, room: nat): seq<bv8> {
    if s.pos >= |s.data| then [] else s.data[s.pos..Min(s.pos + room, |s.data|)]
  }

  function Target(s: State, offset: int, whence: int): int {
    if whence == 0 then offset else if whence == 1 then s.pos + offset else if whence == 2 then |s.data| + offset else -1
  }

  // ---------------------------------------------------------------- the two kinds

  /** bytes.Reader reports the end before it looks at the buffer. */
  function ReadMemory(s: State, room: nat): (State, Observation) {
    if s.pos >= |s.data| then (s, Failed(EndOfFile))
    else (s.(pos := s.pos + |Chunk(s, room)|), Got(Chunk(s, room)))
  }

  /** os.File reports the end only to a caller that asked for something. */
  function ReadDisk(s: State, room: nat): (State, Observation) {
    if room > 0 && s.pos >= |s.data| then (s, Failed(EndOfFile))
    else (s.(pos := s.pos + |Chunk(s, room)|), Got(Chunk(s, room)))
  }

  /** Both refuse an unknown origin or a negative target, and both may go past the end. */
  function SeekTo(s: State, offset: int, whence: int): (State, Observation) {
    var target := Target(s, offset, whence);
    if target < 0 then (s, Failed(BadSeek)) else (s.(pos := target), At(target))
  }

  function Step(disk: bool, s: State, op: Op): (State, Observation) {
    match op
    case Size => (s, Length(|s.data|))
    case Close => (s.(closed := true), Closed)
    case Read(room) => if s.closed then (s, Failed(StorageClosed)) else if disk then ReadDisk(s, room) else ReadMemory(s, room)
    case Seek(offset, whence) => if s.closed then (s, Failed(StorageClosed)) else SeekTo(s, offset, whence)
    case Bytes => if s.closed then (s, Failed(StorageClosed)) else (s, Content(s.data))
  }

  function Final(disk: bool, s: State, ops: seq<Op>): State
    decreases |ops|
  {
    if ops == [] then s else Final(disk, Step(disk, s, ops[0]).0, ops[1..])
  }

  function Observed(disk: bool, s: State, ops: seq<Op>): seq<Observation>
    decreases |ops|
  {
    if ops == [] then [] else [Step(disk, s, ops[0]).1] + Observed(disk, Step(disk, s, ops[0]).0, ops[1..])
  }

  /** What every operation answers and where it leaves the cursor, in plain figures. A closed storage
      answers its size and refuses the rest; a seek counts from the start, the cursor or the end and
      may go beyond the end but not before the start; nothing but reading and seeking moves. */
  lemma StepIs(disk: bool, s: State, op: Op)
    ensures var (next, seen) := Step(disk, s, op);
      match op
      case Size => next == s && seen == Length(|s.data|)
      case Close => next == State(s.data, s.pos, true) && seen == Closed
      case Bytes => next == s && seen == if s.closed then Failed(StorageClosed) else Content(s.data)
      case Seek(offset, whence) =>
        var from := [0, s.pos, |s.data|];
        if s.closed then next == s && seen == Failed(StorageClosed)
        else if 0 <= whence <= 2 && from[whence] + offset >= 0
        then next == State(s.data, from[whence] + offset, false) && seen == At(from[whence] + offset)
        else next == s && seen == Failed(BadSeek)
      case Read(room) =>
        if s.closed then next == s && seen == Failed(StorageClosed)
        else if s.pos < |s.data| then
          var n := if s.pos + room < |s.data| then room else |s.data| - s.pos;
          next == State(s.data, s.pos + n, false) && seen == Got(s.data[s.pos..s.pos + n])
        else next == s && seen == if disk && room == 0 then Got([]) else Failed(EndOfFile)
  {}

  // ---------------------------------------------------------------- indistinguishable, and when not

  /** A read into an empty buffer with nothing left: memory says end of file, disk says nothing. */
  predicate EmptyReadAtEnd(s: State, op: Op) { op.Read? && op.room == 0 && !s.closed && s.pos >= |s.data| }

  predicate SomeEmptyReadAtEnd(s: State, ops: seq<Op>)
    decreases |ops|
  {
    ops != [] && (EmptyReadAtEnd(s, ops[0]) || SomeEmptyReadAtEnd(Step(false, s, ops[0]).0, ops[1..]))
  }

  /** No sequence of operations takes the two storages to different states. */
  lemma {:induction false} SameState(s: State, ops: seq<Op>)
    ensures Final(true, s, ops) == Final(false, s, ops)
    decreases |ops|
  {
    if ops != [] {
      assert Step(true, s, ops[0]).0 == Step(false, s, ops[0]).0;
      SameState(Step(false, s, ops[0]).0, ops[1..]);
    }
  }

  lemma StepDiffers(s: State, op: Op)
    ensures Step(true, s, op).0 == Step(false, s, op).0
    ensures Step(true, s, op).1 == Step(false, s, op).1 <==> !EmptyReadAtEnd(s, op)
  {
  }

  /** The two storages are indistinguishable by their answers over a whole sequence of operations
      exactly when no empty buffer is read at or past the end. */
  lemma {:induction false} IndistinguishableIff(s: State, ops: seq<Op>)
    ensures Observed(true, s, ops) == Observed(false, s, ops) <==> !SomeEmptyReadAtEnd(s, ops)
    decreases |ops|
  {
    if ops != [] {
      var next := Step(false, s, ops[0]).0;
      StepDiffers(s, ops[0]);
      IndistinguishableIff(next, ops[1..]);
      var a, b := Observed(true, next, ops[1..]), Observed(false, next, ops[1..]);
      assert Observed(true, s, ops)[0] == Step(true, s, ops[0]).1 && Observed(true, s, ops)[1..] == a;
      assert Observed(false, s, ops)[0] == Step(false, s, ops[0]).1 && Observed(false, s, ops)[1..] == b;
    }
  }

  /** The content never changes, and only Close closes. */
  lemma {:induction false} ContentIsFixed(disk: bool, s: State, ops: seq<Op>)
    ensures Final(disk, s, ops).data == s.data
    ensures Final(disk, s, ops).closed <==> s.closed || Close in ops
    decreases |ops|
  {
    if ops != [] {
      ContentIsFixed(disk, Step(disk, s, ops[0]).0, ops[1..]);
      assert ops == [ops[0]] + ops[1..];
    }
  }

  // ---------------------------------------------------------------- replay

  function Reads(rooms: seq<nat>): seq<Op> {
    if rooms == [] then [] else [Read(rooms[0])] + Reads(rooms[1..])
  }

  function Joined(seen: seq<Observation>): seq<bv8> {
    if seen == [] then [] else (if seen[0].Got? then seen[0].chunk else []) + Joined(seen[1..])
  }

  function Total(rooms: seq<nat>): nat {
    if rooms == [] then 0 else rooms[0] + Total(rooms[1..])
  }

  lemma FirstRead(disk: bool, s: State, rooms: seq<nat>)
    requires rooms != []
    ensures var step := Step(disk, s, Read(rooms[0]));
            && Observed(disk, s, Reads(rooms)) == [step.1] + Observed(disk, step.0, Reads(rooms[1..]))
            && Final(disk, s, Reads(rooms)) == Final(disk, step.0, Reads(rooms[1..]))
  {
    assert Reads(rooms)[1..] == Reads(rooms[1..]);
  }

  lemma JoinedCons(first: Observation, rest: seq<Observation>)
    ensures Joined([first] + rest) == (if first.Got? then first.chunk else []) + Joined(rest)
  {
    assert ([first] + rest)[1..] == rest;
  }

  /** Where `count` bytes from the cursor on end. */
  function End(s: State, count: nat): nat
    requires s.pos <= |s.data|
  {
    Min(s.pos + count, |s.data|)
  }

  lemma {:induction false} ReadsMove(disk: bool, s: State, rooms: seq<nat>)
    requires !s.closed && s.pos <= |s.data|
    ensures Final(disk, s, Reads(rooms)) == s.(pos := End(s, Total(rooms)))
    decreases |rooms|
  {
    if rooms != [] {
      FirstRead(disk, s, rooms);
      ReadStep(disk, s, rooms[0]);
      ReadsMove(disk, s.(pos := End(s, rooms[0])), rooms[1..]);
    }
  }

  /** Reading from any cursor with any buffers yields the bytes there, in order, none twice and none
      skipped: exactly as many as the buffers hold together, or all that are left. */
  lemma {:induction false} ReadsReplay(disk: bool, s: State, rooms: seq<nat>)
    requires !s.closed && s.pos <= |s.data|
    ensures Joined(Observed(disk, s, Reads(rooms))) == s.data[s.pos..End(s, Total(rooms))]
    decreases |rooms|
  {
    if rooms != [] {
      var next := s.(pos := End(s, rooms[0]));
      FirstChunk(disk, s, rooms);
      ReadsReplay(disk, next, rooms[1..]);
      assert End(next, Total(rooms[1..])) == End(s, Total(rooms));
      Adjacent(s.data, s.pos, next.pos, End(s, Total(rooms)));
    }
  }

  lemma FirstChunk(disk: bool, s: State, rooms: seq<nat>)
    requires rooms != [] && !s.closed && s.pos <= |s.data|
    ensures Joined(Observed(disk, s, Reads(rooms))) ==
            s.data[s.pos..End(s, rooms[0])] + Joined(Observed(disk, s.(pos := End(s, rooms[0])), Reads(rooms[1..])))
  {
    var step, next := Step(disk, s, Read(rooms[0])), s.(pos := End(s, rooms[0]));
    var rest := Observed(disk, next, Reads(rooms[1..]));
    ReadStep(disk, s, rooms[0]);
    assert Observed(disk, s, Reads(rooms)) == [step.1] + rest by { FirstRead(disk, s, rooms); }
    JoinedCons(step.1, rest);
  }

  lemma ReadStep(disk: bool, s: State, room: nat)
    requires !s.closed && s.pos <= |s.data|
    ensures var step := Step(disk, s, Read(room));
            && step.0 == s.(pos := End(s, room))
            && (if step.1.Got? then step.1.chunk else []) == s.data[s.pos..End(s, room)]
  {
  }

  lemma Adjacent(data: seq<bv8>, a: nat, b: nat, c: nat)
    requires a <= b <= c <= |data|
    ensures data[a..b] + data[b..c] == data[a..c]
  {
  }

  /** After rewinding, buffers that hold the whole body together read back the whole body. */
  lemma RewindReplaysAll(disk: bool, s: State, rooms: seq<nat>)
    requires !s.closed && Total(rooms) >= |s.data|
    ensures Joined(Observed(disk, Step(disk, s, Seek(0, 0)).0, Reads(rooms))) == s.data
  {
    ReadsReplay(disk, s.(pos := 0), rooms);
  }

  // ---------------------------------------------------------------- the storages themselves

  /** What a caller of Read sees in its buffer. */
  function Seen(err: Option<Error>, chunk: seq<bv8>): Observation {
    if err.Some? then Failed(err.value) else Got(chunk)
  }

  /** The file operation of diskStorage.Bytes that fails, if one does. */
  datatype Fault = NoFault | Locating | Rewinding | Reading(got: nat) | Restoring

  /** Where the cursor is left. */
  function Stranded(fault: Fault, pos: nat, size: nat): nat {
    match fault
    case Reading(got) => Min(got, size)
    case Restoring => size
    case _ => pos
  }

  class MemoryStorage {
    const data: seq<bv8>
    var pos: nat
    var closed: bool

    function AsState(): State
      reads this
    {
      State(data, pos, closed)
    }

    constructor (body: seq<bv8>)
      ensures AsState() == State(body, 0, false)
    {
      data, pos, closed := body, 0, false;
    }

    method Read(p: array<bv8>) returns (n: nat, err: Option<Error>)
      modifies this`pos, p
      ensures n <= p.Length && p[n..] == old(p[n..])
      ensures (AsState(), Seen(err, p[..n])) == Step(false, old(AsState()), Op.Read(p.Length))
    {
      if closed {
        return 0, Some(StorageClosed);
      }
      if pos >= |data| {
        return 0, Some(EndOfFile);
      }
      n := Min(p.Length, |data| - pos);
      forall i | 0 <= i < n { p[i] := data[pos + i]; }
      assert p[..n] == data[pos..pos + n];
      pos := pos + n;
      err := None;
    }

    method Seek(offset: int, whence: int) returns (position: int, err: Option<Error>)
      modifies this`pos
      ensures (AsState(), if err.Some? then Failed(err.value) else At(position)) == Step(false, old(AsState()), Op.Seek(offset, whence))
    {
      if closed {
        return 0, Some(StorageClosed);
      }
      var target;
      if whence == 0 {
        target := offset;
      } else if whence == 1 {
        target := pos + offset;
      } else if whence == 2 {
        target := |data| + offset;
      } else {
        return 0, Some(BadSeek);
      }
      if target < 0 {
        return 0, Some(BadSeek);
      }
      pos := target;
      return target, None;
    }

    method Bytes() returns (all: seq<bv8>, err: Option<Error>)
      ensures (AsState(), if err.Some? then Failed(err.value) else Content(all)) == Step(false, AsState(), Op.Bytes)
    {
      if closed {
        return [], Some(StorageClosed);
      }
      return data, None;
    }

    method Close()
      modifies this`closed
      ensures AsState() == Step(false, old(AsState()), Op.Close).0
    {
      closed := true;
    }
  }

  class DiskStorage {
    const file: seq<bv8>
    const size: nat
    var pos: nat
    var closed: bool

    /** Nothing but this storage touches its file. */
    ghost predicate Valid()
      reads this
    {
      size == |file|
    }

    function AsState(): State
      reads this
    {
      State(file, pos, closed)
    }

    constructor (body: seq<bv8>)
      ensures Valid() && AsState() == State(body, 0, false)
    {
      file, size, pos, closed := body, |body|, 0, false;
    }

    method Read(p: array<bv8>) returns (n: nat, err: Option<Error>)
      requires Valid()
      modifies this`pos, p
      ensures Valid() && n <= p.Length && p[n..] == old(p[n..])
      ensures (AsState(), Seen(err, p[..n])) == Step(true, old(AsState()), Op.Read(p.Length))
    {
      if closed {
        return 0, Some(StorageClosed);
      }
      if p.Length > 0 && pos >= |file| {
        return 0, Some(EndOfFile);
      }
      n := if pos >= |file| then 0 else Min(p.Length, |file| - pos);
      forall i | 0 <= i < n { p[i] := file[pos + i]; }
      assert pos < |file| ==> p[..n] == file[pos..pos + n];
      pos := pos + n;
      err := None;
    }

    /** lseek on the open file. */
    method SeekFile(offset: int, whence: int) returns (position: int, err: Option<Error>)
      modifies this`pos
      ensures (AsState(), if err.Some? then Failed(err.value) else At(position)) == SeekTo(old(AsState()), offset, whence)
    {
      var target := Target(AsState(), offset, whence);
      if target < 0 {
        return 0, Some(BadSeek);
      }
      pos := target;
      return target, None;
    }

    method Seek(offset: int, whence: int) returns (position: int, err: Option<Error>)
      requires Valid()
      modifies this`pos
      ensures Valid()
      ensures (AsState(), if err.Some? then Failed(err.value) else At(position)) == Step(true, old(AsState()), Op.Seek(offset, whence))
    {
      if closed {
        return 0, Some(StorageClosed);
      }
      position, err := SeekFile(offset, whence);
    }

    /** io.ReadFull from the cursor on. */
    method ReadFull(want: nat) returns (all: seq<bv8>, err: Option<Error>)
      requires pos <= |file|
      modifies this`pos
      ensures pos >= old(pos) && (err.None? ==> pos == old(pos) + want)
      ensures err == if old(pos) + want <= |file| then None else Some(EndOfFile)
      ensures err.None? ==> all == file[old(pos)..old(pos) + want]
    {
      all := [];
      var start := pos;
      while |all| < want && pos < |file|
        invariant start <= pos <= |file| && |all| <= want && all == file[start..pos]
        decreases |file| - pos
      {
        var n := Min(want - |all|, |file| - pos);
        all := all + file[pos..pos + n];
        pos := pos + n;
      }
      err := if |all| < want then Some(EndOfFile) else None;
    }

    /** The whole content, with the cursor saved, moved and put back. A file operation may fail, and
        then the cursor stays where it is by then. */
    method Bytes(fault: Fault) returns (all: seq<bv8>, err: Option<Error>)
      requires Valid()
      modifies this`pos
      ensures Valid()
      ensures fault.NoFault? || closed ==>
                (AsState(), if err.Some? then Failed(err.value) else Content(all)) == Step(true, old(AsState()), Op.Bytes)
      ensures !fault.NoFault? && !closed ==> err == Some(BrokenFile) && AsState() == old(AsState()).(pos := Stranded(fault, old(pos), size))
    {
      if closed {
        return [], Some(StorageClosed);
      }
      if fault.Locating? {
        return [], Some(BrokenFile);
      }
      var current, _ := SeekFile(0, 1);
      if fault.Rewinding? {
        return [], Some(BrokenFile);
      }
      var _, _ := SeekFile(0, 0);
      if fault.Reading? {
        pos := Min(fault.got, size);
        return [], Some(BrokenFile);
      }
      all, err := ReadFull(size);
      assert file[0..size] == file;
      if err.Some? {
        return;
      }
      if fault.Restoring? {
        return [], Some(BrokenFile);
      }
      var _, _ := SeekFile(current, 0);
    }

    method Close()
      requires Valid()
      modifies this`closed
      ensures Valid() && AsState() == Step(true, old(AsState()), Op.Close).0
    {
      closed := true;
    }
  }
}
