/**
 The byte buffer of core/buffer.hh.

 `Layout` is the buffer as a value: how far its content is from the start of the
 allocation, the content, and the size of the allocation.  The class keeps the
 bytes in an array and is proved to step through these layouts; the lemmas are
 about whole runs of layouts.
 */
module Buffer {
  import opened Text
  import Message

  const MAX_READ: nat := 4096
  const DEFAULT_SIZE: nat := 128

  datatype Layout = Layout(misalign: nat, content: string, capacity: nat)

  const EMPTY: Layout := Layout(0, "", DEFAULT_SIZE)

  predicate InBounds(l: Layout) {
    l.misalign + |l.content| <= l.capacity
  }

  /** The doubling loop of `__expand`. */
  function Doubled(length: nat, need: nat): (r: nat)
    requires length > 0
    ensures r >= need && r >= length
    decreases need - length
  {
    if length >= need then length else Doubled(2 * length, need)
  }

  function AtLeast256(n: nat): nat {
    if n < 256 then 256 else n
  }

  function Need(l: Layout, count: nat): nat {
    l.misalign + |l.content| + count
  }

  function Expanded(l: Layout, count: nat): Layout {
    if l.capacity >= Need(l, count) then l
    else if l.misalign >= count then l.(misalign := 0)
    else l.(misalign := 0, capacity := Doubled(AtLeast256(l.capacity), Need(l, count)))
  }

  /** How many bytes `push(buffer*, length)` moves. */
  function MoveCount(source: Layout, length: int): (n: nat)
    ensures n <= |source.content|
  {
    if length < 0 || length > |source.content| then |source.content| else length
  }

  function Drained(l: Layout, n: nat): Layout {
    if n >= |l.content| then l.(misalign := 0, content := "")
    else l.(misalign := l.misalign + n, content := l.content[n..])
  }

  /** `__expand` fails: it needs a larger allocation and `realloc` has none. */
  predicate Fails(l: Layout, count: nat, memory: bool) {
    !memory && l.capacity < Need(l, count) && l.misalign < count
  }

  /** `__expand`, which has realigned the content when it fails. */
  function Room(l: Layout, count: nat, memory: bool): Layout {
    if Fails(l, count, memory) then l.(misalign := 0) else Expanded(l, count)
  }

  function Pushed(l: Layout, data: string, memory: bool): Layout {
    var l1 := Room(l, |data|, memory);
    if Fails(l, |data|, memory) then l1 else l1.(content := l1.content + data)
  }

  function Min(a: nat, b: nat): nat {
    if a <= b then a else b
  }

  function Popped(l: Layout, n: nat): Layout {
    if Min(n, |l.content|) > 0 then Drained(l, Min(n, |l.content|)) else l
  }

  /** `pop()` takes the first line and its end; without a line end it does nothing. */
  function LinePopped(l: Layout): Layout {
    var rest := Message.PopLine(l.content).rest;
    if |rest| == |l.content| then l else Drained(l, |l.content| - |rest|)
  }

  lemma DrainedSame(l: Layout, m: Layout, n: nat)
    requires |l.content| == |m.content| && m == l.(content := m.content)
    requires n <= |l.content| && l.content[n..] == m.content[n..]
    ensures Drained(l, n) == Drained(m, n)
  {
  }

  lemma LinePoppedAt(l: Layout)
    ensures var i := Message.FirstEol(l.content);
            if i == |l.content| then LinePopped(l) == l && Message.PopLine(l.content).text == ""
            else LinePopped(l) == Drained(l, i + Message.EolLength(l.content, i)) &&
                 Message.PopLine(l.content).text == Message.CString(l.content[..i])
    ensures LinePopped(l).content == Message.PopLine(l.content).rest
  {
  }

  function ReadCount(count: int): nat {
    if count < 0 || count > MAX_READ then MAX_READ else count
  }

  /** `read`, where `data` arrived if there was room for it. */
  function Filled(l: Layout, count: int, data: string, memory: bool): Layout {
    var l1 := Room(l, ReadCount(count), memory);
    if Fails(l, ReadCount(count), memory) then l1 else l1.(content := l1.content + data)
  }

  /** `n` is what the system call returned. */
  function Written(l: Layout, n: int): Layout {
    if n <= 0 then l else Drained(l, n)
  }

  // ---------------------------------------------------------------------------
  // The class

  class Buffer {
    var origin: array<char>
    var buf: nat          // where buf_ points, counted from originbuf_
    var misalign: nat
    var off: nat
    var totallen: nat

    ghost predicate Valid()
      reads this
    {
      buf == misalign && misalign + off <= totallen == origin.Length
    }

    ghost function State(): Layout
      requires Valid()
      reads this, origin
    {
      Layout(misalign, origin[buf..buf + off], totallen)
    }

    ghost function Content(): string
      requires Valid()
      reads this, origin
    {
      origin[buf..buf + off]
    }

    constructor ()
      ensures Valid() && State() == EMPTY && fresh(origin)
    {
      origin := new char[DEFAULT_SIZE];
      buf, misalign, off, totallen := 0, 0, 0, DEFAULT_SIZE;
    }

    method Clear()
      requires Valid()
      modifies this
      ensures Valid() && origin == old(origin)
      ensures State() == Layout(0, "", old(State()).capacity)
    {
      misalign, off := 0, 0;
      buf := 0;
    }

    /** Moves the content to the start of the allocation. */
    method Align()
      requires Valid()
      modifies this, origin
      ensures Valid() && origin == old(origin)
      ensures State() == old(State()).(misalign := 0)
    {
      forall i | 0 <= i < off {
        origin[i] := origin[buf + i];
      }
      buf, misalign := 0, 0;
    }

    /** `memory` says whether `realloc` succeeds. */
    method Expand(count: nat, memory: bool) returns (r: int)
      requires Valid()
      modifies this, origin
      ensures Valid() && (origin == old(origin) || fresh(origin))
      ensures r == if Fails(old(State()), count, memory) then -1 else 0
      ensures State() == Room(old(State()), count, memory)
      ensures r == 0 ==> misalign + off + count <= totallen
    {
      var need := misalign + off + count;
      if totallen >= need {
        return 0;
      }
      if misalign >= count {
        Align();
      } else {
        var length := totallen;
        if length < 256 {
          length := 256;
        }
        while length < need
          invariant length > 0
          invariant Doubled(length, need) == Doubled(AtLeast256(totallen), need)
        {
          length := 2 * length;
        }
        if buf != 0 {
          Align();
        }
        if !memory {
          return -1;
        }
        Realloc(length);
      }
      return 0;
    }

    /** Moves the content, which is aligned, to a larger allocation. */
    method Realloc(length: nat)
      requires Valid() && misalign == 0 && length >= totallen
      modifies this
      ensures Valid() && fresh(origin) && totallen == length
      ensures State() == old(State()).(capacity := length) && off == old(off)
    {
      var newbuf := new char[length];
      forall i | 0 <= i < origin.Length {
        newbuf[i] := origin[i];
      }
      origin := newbuf;
      buf := 0;
      totallen := length;
    }

    method Drain(length: nat)
      requires Valid()
      modifies this, origin
      ensures Valid() && origin == old(origin)
      ensures State() == Drained(old(State()), length)
    {
      ghost var l := State();
      if length >= off {
        off, buf, misalign := 0, 0, 0;
      } else {
        buf, misalign, off := buf + length, misalign + length, off - length;
        assert Content() == l.content[length..];
      }
      ghost var left := Content();
      if misalign + off < totallen {
        origin[buf + off] := NUL;
        assert Content() == left;
      }
    }

    /** Copies bytes behind the content, where there is room for them. */
    method Append(data: string)
      requires Valid() && misalign + off + |data| <= totallen
      modifies this`off, origin
      ensures Valid()
      ensures State() == old(State()).(content := old(Content()) + data)
    {
      forall i | 0 <= i < |data| {
        origin[buf + off + i] := data[i];
      }
      off := off + |data|;
    }

    method Push(data: string, memory: bool) returns (r: int)
      requires Valid()
      modifies this, origin
      ensures Valid() && (origin == old(origin) || fresh(origin))
      ensures r == if Fails(old(State()), |data|, memory) then -1 else 0
      ensures State() == Pushed(old(State()), data, memory)
    {
      r := 0;
      if totallen < off + misalign + |data| {
        r := Expand(|data|, memory);
        if r == -1 {
          return;
        }
      }
      Append(data);
    }

    /** `push(buffer*, length)`: takes the bytes out of `input`. */
    method PushFrom(input: Buffer, length: int, memory: bool) returns (r: int)
      requires Valid() && input.Valid() && input != this && input.origin != origin
      modifies this, origin, input, input.origin
      ensures Valid() && input.Valid() && input.origin == old(input.origin) && (origin == old(origin) || fresh(origin))
      ensures var n := MoveCount(old(input.State()), length);
              && r == (if Fails(old(State()), n, memory) then -1 else 0)
              && State() == Pushed(old(State()), old(input.Content())[..n], memory)
              && input.State() == if r == 0 then Drained(old(input.State()), n) else old(input.State())
    {
      var n := length;
      if n > input.off || n < 0 {
        n := input.off;
      }
      assert input.origin[input.buf..input.buf + n] == input.Content()[..n];
      r := Push(input.origin[input.buf..input.buf + n], memory);
      if r == 0 {
        input.Drain(n);
      }
    }

    method Pop(length: nat) returns (data: string)
      requires Valid()
      modifies this, origin
      ensures Valid() && origin == old(origin)
      ensures data == old(Content())[..Min(length, |old(Content())|)]
      ensures State() == Popped(old(State()), length)
    {
      var n := length;
      if n > off {
        n := off;
      }
      data := origin[buf..buf + n];
      if n > 0 {
        Drain(n);
      }
      if misalign + off < totallen {
        origin[buf + off] := NUL;
      }
    }

    method FindLineEnd() returns (i: nat)
      requires Valid()
      ensures i == Message.FirstEol(Content()) && (i < off ==> Message.IsEol(origin[buf + i]))
    {
      ghost var b := Content();
      i := 0;
      while i < off && !Message.IsEol(origin[buf + i])
        invariant 0 <= i <= off
        invariant forall j :: 0 <= j < i ==> !Message.IsEol(b[j])
      {
        i := i + 1;
      }
      assert i < off ==> Message.IsEol(b[i]);
    }

    /** A string from the C string at `buf`, with `i` the NUL put in by the caller. */
    method CStringAt(i: nat) returns (line: string)
      requires Valid() && i < off && origin[buf + i] == NUL
      ensures line == Message.CString(Content()[..i])
    {
      ghost var t := Content()[..i];
      var k := 0;
      while origin[buf + k] != NUL
        invariant 0 <= k <= i
        invariant forall j :: 0 <= j < k ==> t[j] != NUL
        decreases i - k
      {
        assert origin[buf + k] == t[k];
        k := k + 1;
      }
      assert k < i ==> t[k] == NUL;
      assert k == IndexOf(t, NUL, 0);
      line := origin[buf..buf + k];
      assert t == origin[buf..buf + i];
      assert line == t[..k];
    }

    /** Ends the C string at `buf` behind its first `i` bytes and reads it. */
    method CutLine(i: nat, onemore: nat) returns (line: string)
      requires Valid() && onemore <= 1 && i + onemore < off
      modifies origin
      ensures line == Message.CString(old(Content())[..i])
      ensures Content()[i + onemore + 1..] == old(Content())[i + onemore + 1..]
    {
      ghost var b := Content();
      origin[buf + i] := NUL;
      origin[buf + i + onemore] := NUL;
      assert Content()[..i] == b[..i];
      line := CStringAt(i);
    }

    /** Takes the first `i` bytes as a line, and the `onemore + 1` bytes of its end. */
    method TakeLine(i: nat, onemore: nat) returns (line: string)
      requires Valid() && onemore <= 1 && i + onemore < off
      modifies this, origin
      ensures Valid() && origin == old(origin)
      ensures line == Message.CString(old(Content())[..i])
      ensures State() == Drained(old(State()), i + onemore + 1)
    {
      ghost var l0 := State();
      line := CutLine(i, onemore);
      DrainedSame(l0, State(), i + onemore + 1);
      Drain(i + onemore + 1);
    }

    method LineEndLength(i: nat) returns (n: nat)
      requires Valid() && i < off && Message.IsEol(origin[buf + i])
      ensures n == Message.EolLength(Content(), i)
    {
      n := 1;
      if i + 1 < off {
        var c, d := origin[buf + i], origin[buf + i + 1];
        if (c == CR && d == LF) || (c == LF && d == CR) {
          n := 2;
        }
      }
    }

    method PopLine() returns (line: string)
      requires Valid()
      modifies this, origin
      ensures Valid() && origin == old(origin)
      ensures line == Message.PopLine(old(Content())).text
      ensures State() == LinePopped(old(State())) && Content() == Message.PopLine(old(Content())).rest
    {
      ghost var l := State();
      LinePoppedAt(l);
      var i := FindLineEnd();
      if i == off {
        return "";
      }
      var n := LineEndLength(i);
      assert State() == l;
      line := TakeLine(i, n - 1);
    }

    /** `data` is what arrived, `error` a negative result of the system call. */
    method Read(count: int, data: string, error: bool, memory: bool) returns (n: int)
      requires Valid() && |data| <= ReadCount(count) && (error ==> data == "")
      modifies this, origin
      ensures Valid() && (origin == old(origin) || fresh(origin))
      ensures State() == Filled(old(State()), count, data, memory)
      ensures n == if Fails(old(State()), ReadCount(count), memory) || error then -1 else |data|
    {
      var c := if count < 0 || count > MAX_READ then MAX_READ else count;
      var r := Expand(c, memory);
      if r == -1 {
        return -1;
      }
      if |data| == 0 {
        assert Content() + data == Content();
        return if error then -1 else 0;
      }
      Append(data);
      ghost var all := Content();
      if misalign + off < totallen {
        origin[buf + off] := NUL;
        assert Content() == all;
      }
      return |data|;
    }

    /** `result` is what the system call returned; `sent` are the bytes it took. */
    method Write(result: int) returns (n: int, sent: string)
      requires Valid() && -1 <= result <= off
      modifies this, origin
      ensures Valid() && origin == old(origin)
      ensures n == result && State() == Written(old(State()), result)
      ensures sent + Content() == old(Content())
    {
      n := result;
      sent := "";
      if n == -1 || n == 0 {
        return;
      }
      sent := origin[buf..buf + n];
      Drain(n);
    }
  }

  // ---------------------------------------------------------------------------
  // Runs of operations

  /** `memory` says whether `realloc` would succeed; `Drain` is the source's side of
      `push(buffer*, n)`, and `Skip` an operation on another buffer. */
  datatype Op =
    | Push(data: string, memory: bool)
    | Pop(n: nat)
    | PopLine
    | Read(count: int, data: string, memory: bool)
    | Write(result: int)
    | Clear
    | Drain(n: nat)
    | Skip

  /** The bytes an operation asks room for. */
  function Incoming(op: Op): nat {
    match op
    case Push(data, _) => |data|
    case Read(count, _, _) => ReadCount(count)
    case _ => 0
  }

  predicate Possible(l: Layout, op: Op) {
    match op
    case Read(count, data, _) => |data| <= ReadCount(count)
    case Write(n) => -1 <= n <= |l.content|
    case Drain(n) => n <= |l.content|
    case _ => true
  }

  function After(l: Layout, op: Op): Layout {
    match op
    case Push(data, memory) => Pushed(l, data, memory)
    case Pop(n) => Popped(l, n)
    case PopLine => LinePopped(l)
    case Read(count, data, memory) => Filled(l, count, data, memory)
    case Write(n) => Written(l, n)
    case Clear => Layout(0, "", l.capacity)
    case Drain(n) => Drained(l, n)
    case Skip => l
  }

  /** The bytes an operation puts in: none when there is no memory for them. */
  function Given(l: Layout, op: Op): string {
    if (op.Push? || op.Read?) && !Fails(l, Incoming(op), op.memory) then op.data else ""
  }

  /** The bytes an operation takes from the front. */
  function Taken(l: Layout, op: Op): string {
    match op
    case Pop(n) => l.content[..Min(n, |l.content|)]
    case PopLine => l.content[..|l.content| - |Message.PopLine(l.content).rest|]
    case Write(n) => if n <= 0 then "" else l.content[..Min(n, |l.content|)]
    case Clear => l.content
    case Drain(n) => l.content[..Min(n, |l.content|)]
    case _ => ""
  }

  ghost predicate IsRun(ops: seq<Op>, ls: seq<Layout>) {
    && |ls| == |ops| + 1 && ls[0] == EMPTY
    && forall k :: 0 <= k < |ops| ==> Possible(ls[k], ops[k]) && ls[k + 1] == After(ls[k], ops[k])
  }

  function AllGiven(ops: seq<Op>, ls: seq<Layout>): string
    requires |ls| >= |ops|
  {
    if ops == [] then ""
    else AllGiven(ops[..|ops| - 1], ls) + Given(ls[|ops| - 1], ops[|ops| - 1])
  }

  function AllTaken(ops: seq<Op>, ls: seq<Layout>): string
    requires |ls| >= |ops|
  {
    if ops == [] then ""
    else AllTaken(ops[..|ops| - 1], ls) + Taken(ls[|ops| - 1], ops[|ops| - 1])
  }

  /** One operation: nothing leaves the allocation, and the content loses what was
      taken from the front and gains what was given at the back. */
  lemma StepIsFifo(l: Layout, op: Op)
    requires InBounds(l) && Possible(l, op)
    ensures InBounds(After(l, op))
    ensures l.content + Given(l, op) == Taken(l, op) + After(l, op).content
  {
  }

  /** The buffer is a FIFO of bytes: over any run, all bytes put in are the bytes
      taken out followed by the content, and the content stays in the allocation. */
  lemma {:induction false} BufferIsFifo(ops: seq<Op>, ls: seq<Layout>, k: nat)
    requires IsRun(ops, ls) && k <= |ops|
    ensures InBounds(ls[k])
    ensures AllGiven(ops[..k], ls) == AllTaken(ops[..k], ls) + ls[k].content
  {
    if k > 0 {
      BufferIsFifo(ops, ls, k - 1);
      assert ops[..k][..k - 1] == ops[..k - 1];
      StepIsFifo(ls[k - 1], ops[k - 1]);
      Assoc(AllTaken(ops[..k - 1], ls), ls[k - 1].content, Given(ls[k - 1], ops[k - 1]));
      Assoc(AllTaken(ops[..k - 1], ls), Taken(ls[k - 1], ops[k - 1]), ls[k].content);
    }
  }

  /** Moving bytes between two buffers loses none and keeps their order, also when
      there is no memory for them. */
  lemma TransferConserves(target: Layout, source: Layout, n: nat, memory: bool)
    requires InBounds(target) && InBounds(source) && n <= |source.content|
    ensures var t := Pushed(target, source.content[..n], memory);
            var s := if Fails(target, n, memory) then source else Drained(source, n);
            t.content + s.content == target.content + source.content && InBounds(t) && InBounds(s)
  {
    Assoc(target.content, source.content[..n], Drained(source, n).content);
  }

  // ---------------------------------------------------------------------------
  // Several buffers

  /** An operation on one of several buffers, or `push(buffer*, length)` from one to
      another. */
  datatype Act = On(i: nat, op: Op) | Move(from: nat, to: nat, length: int, memory: bool)

  predicate CanAct(w: seq<Layout>, a: Act) {
    match a
    case On(i, op) => i < |w| && Possible(w[i], op)
    case Move(from, to, _, _) => from < |w| && to < |w| && from != to
  }

  function Acted(w: seq<Layout>, a: Act): seq<Layout>
    requires CanAct(w, a)
  {
    match a
    case On(i, op) => w[i := After(w[i], op)]
    case Move(from, to, length, memory) =>
      var n := MoveCount(w[from], length);
      var w1 := w[to := Pushed(w[to], w[from].content[..n], memory)];
      if Fails(w[to], n, memory) then w1 else w1[from := Drained(w[from], n)]
  }

  /** What an action is for the i-th buffer. */
  function Local(w: seq<Layout>, a: Act, i: nat): Op
    requires CanAct(w, a)
  {
    match a
    case On(j, op) => if i == j then op else Skip
    case Move(from, to, length, memory) =>
      var n := MoveCount(w[from], length);
      if i == to then Push(w[from].content[..n], memory)
      else if i == from && !Fails(w[to], n, memory) then Drain(n)
      else Skip
  }

  /** Any number of buffers, all new at the start, and any actions on them. */
  ghost predicate IsWorld(acts: seq<Act>, ws: seq<seq<Layout>>) {
    && |ws| == |acts| + 1
    && (forall i :: 0 <= i < |ws[0]| ==> ws[0][i] == EMPTY)
    && (forall k :: 0 <= k < |acts| ==> CanAct(ws[k], acts[k]) && ws[k + 1] == Acted(ws[k], acts[k]))
  }

  lemma ActedIsLocal(w: seq<Layout>, a: Act, i: nat)
    requires CanAct(w, a) && i < |w|
    ensures |Acted(w, a)| == |w|
    ensures Possible(w[i], Local(w, a, i)) && Acted(w, a)[i] == After(w[i], Local(w, a, i))
  {
  }

  lemma {:induction false} WorldSize(acts: seq<Act>, ws: seq<seq<Layout>>, k: nat)
    requires IsWorld(acts, ws) && k < |ws|
    ensures |ws[k]| == |ws[0]|
  {
    if k > 0 {
      WorldSize(acts, ws, k - 1);
      assert ws[k - 1 + 1] == Acted(ws[k - 1], acts[k - 1]);
    }
  }

  /** Each buffer among others makes a run of its own, so all that is proved of runs
      holds of it; bytes moved to it count as given, bytes moved from it as taken. */
  lemma WorldProjects(acts: seq<Act>, ws: seq<seq<Layout>>, i: nat) returns (ops: seq<Op>, ls: seq<Layout>)
    requires IsWorld(acts, ws) && i < |ws[0]|
    ensures IsRun(ops, ls) && |ops| == |acts|
    ensures forall k :: 0 <= k < |ws| ==> i < |ws[k]| && ls[k] == ws[k][i]
    ensures forall k :: 0 <= k < |acts| ==> CanAct(ws[k], acts[k]) && ops[k] == Local(ws[k], acts[k], i)
  {
    forall k | 0 <= k < |ws| ensures i < |ws[k]| {
      WorldSize(acts, ws, k);
    }
    ops := seq(|acts|, k requires 0 <= k < |acts| && CanAct(ws[k], acts[k]) => Local(ws[k], acts[k], i));
    ls := seq(|ws|, k requires 0 <= k < |ws| && i < |ws[k]| => ws[k][i]);
    forall k | 0 <= k < |ops| ensures Possible(ls[k], ops[k]) && ls[k + 1] == After(ls[k], ops[k]) {
      ActedIsLocal(ws[k], acts[k], i);
    }
  }

  /** A move between two buffers, in any run: what the target holds followed by what
      the source holds stays the same, and no other buffer changes. */
  lemma MoveConserves(acts: seq<Act>, ws: seq<seq<Layout>>, k: nat)
    requires IsWorld(acts, ws) && k < |acts| && acts[k].Move?
    ensures var w, w', a := ws[k], ws[k + 1], acts[k];
            && |w'| == |w| && a.to < |w| && a.from < |w|
            && w'[a.to].content + w'[a.from].content == w[a.to].content + w[a.from].content
            && (forall i :: 0 <= i < |w| && i != a.to && i != a.from ==> w'[i] == w[i])
  {
    var w, a := ws[k], acts[k];
    WorldSize(acts, ws, k);
    var ops, ls := WorldProjects(acts, ws, a.to);
    BufferIsFifo(ops, ls, k);
    var ops', ls' := WorldProjects(acts, ws, a.from);
    BufferIsFifo(ops', ls', k);
    TransferConserves(w[a.to], w[a.from], MoveCount(w[a.from], a.length), a.memory);
  }

  // ---------------------------------------------------------------------------
  // Capacity

  function Max(a: nat, b: nat): nat {
    if a >= b then a else b
  }

  lemma {:induction false} DoubledBelow(length: nat, need: nat)
    requires length > 0
    ensures Doubled(length, need) == length || Doubled(length, need) < 2 * need
    decreases need - length
  {
    if length < need {
      DoubledBelow(2 * length, need);
    }
  }

  /** If content plus incoming bytes stay within `m`, the allocation stays within
      max(256, 4m), however much passes through. */
  lemma {:induction false} CapacityBound(ops: seq<Op>, ls: seq<Layout>, m: nat, k: nat)
    requires IsRun(ops, ls) && k <= |ops|
    requires forall j :: 0 <= j < k ==> |ls[j].content| + Incoming(ops[j]) <= m
    ensures ls[k].capacity <= Max(256, 4 * m)
  {
    if k > 0 {
      CapacityBound(ops, ls, m, k - 1);
      var l, n := ls[k - 1], Incoming(ops[k - 1]);
      DoubledBelow(AtLeast256(l.capacity), Need(l, n));
    }
  }

  function Pow2(k: nat): nat {
    if k == 0 then 1 else 2 * Pow2(k - 1)
  }

  /** Sizes an allocation can have. */
  ghost predicate Shape(c: nat) {
    c == 128 || exists k: nat :: c == 256 * Pow2(k)
  }

  lemma {:induction false} DoubledShape(length: nat, k: nat, need: nat)
    requires length == 256 * Pow2(k) && length > 0
    ensures Shape(Doubled(length, need))
    decreases need - length
  {
    if length < need {
      assert Pow2(k + 1) == 2 * Pow2(k);
      DoubledShape(2 * length, k + 1, need);
    }
  }

  lemma ExpandedShape(l: Layout, count: nat)
    requires Shape(l.capacity)
    ensures Shape(Expanded(l, count).capacity)
  {
    var c := AtLeast256(l.capacity);
    if l.capacity == 128 {
      assert 256 == 256 * Pow2(0);
      DoubledShape(256, 0, Need(l, count));
    } else {
      var k: nat :| l.capacity == 256 * Pow2(k);
      Pow2Positive(k);
      DoubledShape(c, k, Need(l, count));
    }
  }

  lemma {:induction false} Pow2Positive(k: nat)
    ensures Pow2(k) > 0
  {
    if k > 0 { Pow2Positive(k - 1); }
  }

  /** In every run the allocation has 128 bytes, or 256 times a power of two. */
  lemma {:induction false} CapacityShape(ops: seq<Op>, ls: seq<Layout>, k: nat)
    requires IsRun(ops, ls) && k <= |ops|
    ensures Shape(ls[k].capacity)
  {
    if k > 0 {
      CapacityShape(ops, ls, k - 1);
      ExpandedShape(ls[k - 1], Incoming(ops[k - 1]));
    }
  }

  const GIB: nat := 0x4000_0000

  lemma {:induction false} Pow2Mono(j: nat, k: nat)
    requires j <= k
    ensures Pow2(j) <= Pow2(k)
  {
    if j < k { Pow2Mono(j, k - 1); }
  }

  /** A shape that fits an `int` is at most 2^30. */
  lemma Pow2Gap(k: nat)
    ensures 256 * Pow2(k) <= GIB || 256 * Pow2(k) > INT_MAX
  {
    assert Pow2(5) == 32;
    assert Pow2(10) == 1024;
    assert Pow2(15) == 0x8000;
    assert Pow2(20) == 0x10_0000;
    assert Pow2(22) == 0x40_0000;
    assert Pow2(23) == 0x80_0000;
    if k <= 22 {
      Pow2Mono(k, 22);
    } else {
      Pow2Mono(23, k);
    }
  }

  /** When the allocation has to grow, the doubled size fits an `int` exactly
      while the need is at most 2^30. */
  lemma DoublingFitsInt(c: nat, need: nat)
    requires Shape(c) && c <= INT_MAX
    ensures Doubled(AtLeast256(c), need) <= INT_MAX <==> need <= GIB
  {
    var r := Doubled(AtLeast256(c), need);
    DoubledBelow(AtLeast256(c), need);
    if c != 128 {
      var k: nat :| c == 256 * Pow2(k);
      Pow2Gap(k);
    }
    assert Shape(r) by {
      if c == 128 { assert 256 == 256 * Pow2(0); DoubledShape(256, 0, need); }
      else {
        var k: nat :| c == 256 * Pow2(k);
        Pow2Positive(k);
        DoubledShape(c, k, need);
      }
    }
    if r != 128 {
      var k: nat :| r == 256 * Pow2(k);
      Pow2Gap(k);
    }
  }
}
