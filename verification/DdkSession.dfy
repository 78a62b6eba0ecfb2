/**
  What the calls on the DDK USB memory driver do to positions: the file position, the left-over bytes, and
  the two cursors on the device.  Whether a message to the device goes through, and how many bytes a
  transfer moves, is up to the device.
 */
module DdkSession {
  import opened Geometry
  import opened Kernel

  /** The device's answer to one message: a control message only fails or not, a transfer also says how much it moves. */
  datatype Reply = Lost | Through(n: nat)

  /** The memory's size, the sizes of the packet buffers, and the answer to each message in turn. */
  datatype Link = Link(size: nat, inSize: nat, outSize: nat, replies: nat -> Reply)

  /**
    `left` bytes in the buffer are still to be read; they were at `src` when the packet came.  `tick`
    messages have been sent, `sent` bytes written.
   */
  datatype Session = Session(pos: nat, left: nat, src: nat, rd: nat, wr: nat, tick: nat, sent: nat, successes: nat, failures: nat)
  {
    predicate Synced() {
      rd == wr
    }
  }

  /** Bytes of the memory, by their place. */
  datatype Piece = Piece(from: nat, n: nat)

  datatype Call =
    | ReadCall(count: nat, fault: bool)
    | WriteCall(data: seq<byte>, faults: nat -> bool)
    | SeekCall(offset: int, whence: int)

  datatype Answer = Bytes(piece: Piece) | Count(n: nat) | Position(pos: nat)

  // ----- messages

  function Goes(link: Link, s: Session): bool {
    link.replies(s.tick).Through?
  }

  function Ticked(s: Session): Session {
    s.(tick := s.tick + 1)
  }

  function PutRead(link: Link, s: Session, off: nat): Session {
    if Goes(link, s) then Ticked(s).(rd := off) else Ticked(s)
  }

  function PutWrite(link: Link, s: Session, off: nat): Session {
    if Goes(link, s) then Ticked(s).(wr := off) else Ticked(s)
  }

  /** The device sends what its answer says, but no more than fits in the buffer or is behind its read cursor. */
  function PacketSize(link: Link, s: Session): nat
    requires Goes(link, s)
  {
    Min(Min(link.replies(s.tick).n, link.inSize), Max(0, link.size - s.rd))
  }

  function Received(link: Link, s: Session): Session {
    if Goes(link, s) then Ticked(s).(rd := s.rd + PacketSize(link, s)) else Ticked(s)
  }

  /** A transfer takes at least one byte of what it is given. */
  function Taken(link: Link, s: Session, size: nat): (k: nat)
    requires Goes(link, s) && 0 < size
    ensures 0 < k <= size
  {
    var n := link.replies(s.tick).n;
    if 0 < n <= size then n else size
  }

  // ----- the calls

  /** Sets the read cursor to the file position, gets a packet, and sets the write cursor behind it. */
  function Fetch(link: Link, s: Session): (Session, Result<nat>) {
    var s1 := PutRead(link, s, s.pos);
    var s2 := Received(link, s1);
    if !Goes(link, s) then (s1, Err(EIO))
    else if !Goes(link, s1) then (s2, Err(EIO))
    else
      var n := PacketSize(link, s1);
      (PutWrite(link, s2, s.pos + n), if Goes(link, s2) then Ok(n) else Err(EIO))
  }

  /** Hands out the first of `size` buffered bytes from `from`, or keeps all of them if the copy faults. */
  function Deliver(s: Session, size: nat, from: nat, count: nat, fault: bool): (Session, Result<Piece>) {
    var n := Min(size, count);
    if fault && 0 < n then (s.(left := size, src := from), Err(EFAULT))
    else (s.(left := size - n, src := from + n, pos := s.pos + n), Ok(Piece(from, n)))
  }

  function Read(link: Link, s: Session, count: nat, fault: bool): (Session, Result<Piece>) {
    if s.left != 0 then Deliver(s, s.left, s.src, count, fault)
    else
      var (s', size) := Fetch(link, s);
      if size.Err? then (s', Err(size.error)) else Deliver(s', size.value, s.pos, count, fault)
  }

  /** Sends what is left of `len` bytes, transfer by transfer. */
  function Send(link: Link, s: Session, len: nat, wrote: nat, faults: nat -> bool): (Session, Result<nat>)
    requires wrote <= len && 0 < link.outSize
    decreases len - wrote
  {
    if wrote == len then (s, Ok(wrote))
    else if faults(wrote) then (s, Err(EFAULT))
    else if !Goes(link, s) then (Ticked(s).(failures := s.failures + 1), Err(EIO))
    else
      var k := Taken(link, s, Min(link.outSize, len - wrote));
      Send(link, Ticked(s).(wr := s.wr + k, sent := s.sent + k), len, wrote + k, faults)
  }

  lemma SendStep(link: Link, s: Session, len: nat, wrote: nat, faults: nat -> bool)
    requires wrote <= len && 0 < link.outSize
    ensures wrote == len ==> Send(link, s, len, wrote, faults) == (s, Ok(wrote))
    ensures wrote < len && faults(wrote) ==> Send(link, s, len, wrote, faults) == (s, Err(EFAULT))
    ensures wrote < len && !faults(wrote) && !Goes(link, s) ==>
              Send(link, s, len, wrote, faults) == (Ticked(s).(failures := s.failures + 1), Err(EIO))
    ensures wrote < len && !faults(wrote) && Goes(link, s) ==>
              var k := Taken(link, s, Min(link.outSize, len - wrote));
              Send(link, s, len, wrote, faults) == Send(link, Ticked(s).(wr := s.wr + k, sent := s.sent + k), len, wrote + k, faults)
  {
  }

  function Write(link: Link, s: Session, len: nat, faults: nat -> bool): (Session, Result<nat>)
    requires 0 < link.outSize
  {
    if !Goes(link, s) then (Ticked(s), Err(EIO))
    else
      var (s1, r) := Send(link, PutWrite(link, s, s.pos), len, 0, faults);
      if r.Err? then (s1, r)
      else
        var s2 := s1.(pos := s.pos + len, successes := s1.successes + 1);
        (PutRead(link, s2, s2.pos), if Goes(link, s2) then Ok(len) else Err(EIO))
  }

  /** The position to seek to, kept inside the memory. */
  function Target(size: nat, base: nat, offset: int): (p: nat)
    ensures p <= size && (0 <= base + offset <= size ==> p == base + offset)
  {
    if base + offset < 0 then 0 else if base + offset > size then size else base + offset
  }

  /** Asks for the size, for a relative seek also for the read cursor, and sets both cursors. */
  function Seek(link: Link, s: Session, offset: int, whence: int): (Session, Result<nat>) {
    if !Goes(link, s) then (Ticked(s), Err(EIO))
    else
      var s1 := Ticked(s);
      if whence == 0 then MoveTo(link, s1, Target(link.size, 0, offset))
      else if whence == 1 then
        if Goes(link, s1) then MoveTo(link, Ticked(s1), Target(link.size, s.rd, offset)) else (Ticked(s1), Err(EIO))
      else if whence == 2 then MoveTo(link, s1, Target(link.size, link.size, offset))
      else (s1, Err(EINVAL))
  }

  function MoveTo(link: Link, s: Session, p: nat): (Session, Result<nat>) {
    var s1 := PutRead(link, s, p);
    if !Goes(link, s) then (s1, Err(EIO))
    else
      var s2 := PutWrite(link, s1, p);
      if !Goes(link, s1) then (s2, Err(EIO)) else (s2.(pos := p), Ok(p))
  }

  /** The second half of opening a device whose cursors are anywhere. */
  function Open(link: Link, s: Session): (Session, bool) {
    var s1 := PutRead(link, s, 0);
    if !Goes(link, s) then (s1, false) else (PutWrite(link, s1, 0), Goes(link, s1))
  }

  /** Wherever the cursors were, an open that succeeds ends with both at the start; a lost message leaves its own cursor, and the next, alone. */
  lemma OpenRewinds(link: Link, s: Session)
    ensures var (s', ok) := Open(link, s);
      && (ok <==> link.replies(s.tick).Through? && link.replies(s.tick + 1).Through?)
      && s'.rd == (if link.replies(s.tick).Through? then 0 else s.rd)
      && s'.wr == (if ok then 0 else s.wr)
      && s' == s.(rd := s'.rd, wr := s'.wr, tick := s.tick + if link.replies(s.tick).Through? then 2 else 1)
  {
  }

  function Opened(rd: nat, wr: nat, tick: nat): Session {
    Session(0, 0, 0, rd, wr, tick, 0, 0, 0)
  }

  function Perform(link: Link, s: Session, c: Call): (Session, Result<Answer>)
    requires 0 < link.outSize
  {
    match c
    case ReadCall(count, fault) =>
      var (s', r) := Read(link, s, count, fault);
      (s', if r.Ok? then Ok(Bytes(r.value)) else Err(r.error))
    case WriteCall(data, faults) =>
      var (s', r) := Write(link, s, |data|, faults);
      (s', if r.Ok? then Ok(Count(r.value)) else Err(r.error))
    case SeekCall(offset, whence) =>
      var (s', r) := Seek(link, s, offset, whence);
      (s', if r.Ok? then Ok(Position(r.value)) else Err(r.error))
  }

  /** The sessions that a sequence of calls goes through. */
  ghost predicate IsRun(link: Link, run: seq<Session>, calls: seq<Call>)
    requires 0 < link.outSize
  {
    && |run| == |calls| + 1
    && forall i :: 0 <= i < |calls| ==> run[i + 1] == Perform(link, run[i], calls[i]).0
  }

  /** The run that starts in `s`. */
  function Trace(link: Link, s: Session, calls: seq<Call>): (run: seq<Session>)
    requires 0 < link.outSize
    ensures |run| == |calls| + 1 && IsRun(link, run, calls) && run[0] == s
    decreases |calls|
  {
    if calls == [] then [s] else
      var front := Trace(link, s, calls[..|calls| - 1]);
      front + [Perform(link, front[|front| - 1], calls[|calls| - 1]).0]
  }

  // ----- the cursors

  /** Whether the call goes to the device at all: a read of left-over bytes does not. */
  predicate Touches(s: Session, c: Call) {
    !(c.ReadCall? && 0 < s.left)
  }

  predicate Succeeds(link: Link, s: Session, c: Call)
    requires 0 < link.outSize
  {
    Perform(link, s, c).1.Ok?
  }

  /** A call that succeeds on the device leaves the cursors together. */
  lemma SuccessSyncs(link: Link, s: Session, c: Call)
    requires 0 < link.outSize && Touches(s, c) && Succeeds(link, s, c)
    ensures Perform(link, s, c).0.Synced()
  {
    if c.WriteCall? && Goes(link, s) {
      SendMoves(link, PutWrite(link, s, s.pos), |c.data|, 0, c.faults);
    }
  }

  /** Sending moves the write cursor by what was sent, and nothing else that positions depend on. */
  lemma {:induction false} SendMoves(link: Link, s: Session, len: nat, wrote: nat, faults: nat -> bool)
    requires wrote <= len && 0 < link.outSize
    ensures var (s', r) := Send(link, s, len, wrote, faults);
      && s.sent <= s'.sent <= s.sent + len - wrote && s'.wr == s.wr + (s'.sent - s.sent)
      && s' == s.(wr := s'.wr, sent := s'.sent, tick := s'.tick, failures := s'.failures)
      && s.failures <= s'.failures <= s.failures + 1
      && (r.Ok? ==> r.value == len && s'.sent == s.sent + len - wrote && s'.failures == s.failures)
      && (r == Err(EIO) <==> s'.failures == s.failures + 1)
      && (r.Err? ==> s'.sent < s.sent + len - wrote && (r == Err(EIO) || r == Err(EFAULT)))
    decreases len - wrote
  {
    if wrote < len && !faults(wrote) && Goes(link, s) {
      var k := Taken(link, s, Min(link.outSize, len - wrote));
      SendMoves(link, Ticked(s).(wr := s.wr + k, sent := s.sent + k), len, wrote + k, faults);
    }
  }

  /** Where the device takes all it is given and no copy faults, sending takes no more transfers than packets that the data fills. */
  lemma {:induction false} FullPackets(link: Link, s: Session, len: nat, wrote: nat, faults: nat -> bool)
    requires wrote <= len && 0 < link.outSize && (forall t :: link.replies(t) == Through(0)) && forall k :: !faults(k)
    ensures var (s', r) := Send(link, s, len, wrote, faults);
      r.Ok? && s'.tick == s.tick + (len - wrote + link.outSize - 1) / link.outSize
    decreases len - wrote
  {
    var q, rest := link.outSize, len - wrote;
    if rest == 0 {
      DivModUnique(q - 1, q, 0, q - 1);
    } else {
      var k := Min(q, rest);
      FullPackets(link, Ticked(s).(wr := s.wr + k, sent := s.sent + k), len, wrote + k, faults);
      var n := (rest - k + q - 1) / q;
      if rest <= q {
        DivModUnique(q - 1, q, 0, q - 1);
        DivModUnique(rest + q - 1, q, 1, rest - 1);
      } else {
        DivModUnique(rest + q - 1, q, n + 1, (rest - 1) % q);
      }
    }
  }

  /** Where a seek goes to, and when it sets the first cursor: after one or two questions. */
  function SeekTarget(link: Link, s: Session, offset: int, whence: int): nat {
    Target(link.size, if whence == 0 then 0 else if whence == 1 then s.rd else link.size, offset)
  }

  function BeforeMove(s: Session, whence: int): Session {
    if whence == 1 then Ticked(Ticked(s)) else Ticked(s)
  }

  /** The call sets a cursor: the first message that does so goes through. */
  predicate Moves(link: Link, s: Session, c: Call) {
    match c
    case ReadCall(_, _) => s.left == 0 && Goes(link, s)
    case WriteCall(_, _) => Goes(link, s)
    case SeekCall(_, whence) =>
      && 0 <= whence <= 2 && Goes(link, s) && (whence == 1 ==> Goes(link, Ticked(s)))
      && Goes(link, BeforeMove(s, whence))
  }

  /**
    How far the device's answers and the user's buffer let a write get: the bytes it can send before a copy
    faults or a transfer is lost, and the number of the message that comes next.
   */
  function SentUntil(link: Link, tick: nat, len: nat, wrote: nat, faults: nat -> bool): (nat, nat)
    requires wrote <= len && 0 < link.outSize
    decreases len - wrote
  {
    if wrote == len || faults(wrote) || link.replies(tick).Lost? then (wrote, tick)
    else
      var size, n := Min(link.outSize, len - wrote), link.replies(tick).n;
      SentUntil(link, tick + 1, len, wrote + (if 0 < n <= size then n else size), faults)
  }

  /** Sending goes exactly that far, and fails exactly if that is not the end. */
  lemma {:induction false} SendGoesUntil(link: Link, s: Session, len: nat, wrote: nat, faults: nat -> bool)
    requires wrote <= len && 0 < link.outSize
    ensures var (until, tick) := SentUntil(link, s.tick, len, wrote, faults);
      var (s', r) := Send(link, s, len, wrote, faults);
      && until <= len && s'.sent == s.sent + until - wrote && s'.wr == s.wr + until - wrote
      && (r.Ok? <==> until == len) && (r.Ok? ==> s'.tick == tick)
    decreases len - wrote
  {
    if wrote < len && !faults(wrote) && Goes(link, s) {
      var k := Taken(link, s, Min(link.outSize, len - wrote));
      SendGoesUntil(link, Ticked(s).(wr := s.wr + k, sent := s.sent + k), len, wrote + k, faults);
    }
  }

  /**
    A call that fails after moving a cursor has put it somewhere else than the other one: a read that got
    no packet, or could not say so to the write cursor; a write stopped by a fault or a lost message; a seek halfway.
   */
  predicate Parts(link: Link, s: Session, c: Call)
    requires 0 < link.outSize
  {
    && Moves(link, s, c)
    && match c
       case ReadCall(_, _) =>
         var s1 := PutRead(link, s, s.pos);
         if !Goes(link, s1) then s.pos != s.wr
         else !Goes(link, Ticked(s1)) && s.pos + PacketSize(link, s1) != s.wr
       case WriteCall(data, faults) =>
         var (until, tick) := SentUntil(link, s.tick + 1, |data|, 0, faults);
         (until < |data| || link.replies(tick).Lost?) && s.pos + until != s.rd
       case SeekCall(offset, whence) =>
         !Goes(link, Ticked(BeforeMove(s, whence))) && SeekTarget(link, s, offset, whence) != s.wr
  }

  lemma CursorsAfter(link: Link, s: Session, c: Call)
    requires 0 < link.outSize
    ensures var s' := Perform(link, s, c).0;
      && (!Moves(link, s, c) ==> s'.rd == s.rd && s'.wr == s.wr)
      && (Moves(link, s, c) ==> (s'.Synced() <==> !Parts(link, s, c)))
    ensures Touches(s, c) && Succeeds(link, s, c) ==> Moves(link, s, c) && !Parts(link, s, c)
  {
    if c.WriteCall? && Goes(link, s) {
      WriteGoesUntil(link, s, |c.data|, c.faults);
      hide Write, SentUntil;
      var (until, tick) := SentUntil(link, s.tick + 1, |c.data|, 0, c.faults);
      assert Parts(link, s, c) <==> (until < |c.data| || link.replies(tick).Lost?) && s.pos + until != s.rd;
      assert Perform(link, s, c).0 == Write(link, s, |c.data|, c.faults).0;
    }
  }

  /** Where a write that sets its cursor leaves both. */
  lemma WriteGoesUntil(link: Link, s: Session, len: nat, faults: nat -> bool)
    requires 0 < link.outSize && Goes(link, s)
    ensures var (until, tick) := SentUntil(link, s.tick + 1, len, 0, faults);
      var (s', r) := Write(link, s, len, faults);
      && until <= len && s'.wr == s.pos + until
      && (r.Ok? <==> until == len && link.replies(tick).Through?)
      && s'.rd == if r.Ok? then s.pos + len else s.rd
  {
    SendGoesUntil(link, PutWrite(link, s, s.pos), len, 0, faults);
    SendMoves(link, PutWrite(link, s, s.pos), len, 0, faults);
    hide Send, SentUntil;
  }

  /** Call `j` is the last before `i` that moved a cursor, and it failed and left it apart. */
  ghost predicate PartedAt(link: Link, run: seq<Session>, calls: seq<Call>, j: nat, i: nat)
    requires 0 < link.outSize && i < |run| && |run| == |calls| + 1
  {
    j < i && Parts(link, run[j], calls[j]) && forall k :: j < k < i ==> !Moves(link, run[k], calls[k])
  }

  ghost predicate PartedBefore(link: Link, run: seq<Session>, calls: seq<Call>, i: nat)
    requires 0 < link.outSize && i < |run| && |run| == |calls| + 1
  {
    exists j: nat :: PartedAt(link, run, calls, j, i)
  }

  /** In any run after an open that succeeded, wherever the cursors were before it. */
  lemma {:induction false} SyncedUntilParted(link: Link, before: Session, run: seq<Session>, calls: seq<Call>, i: nat)
    requires 0 < link.outSize && IsRun(link, run, calls) && i < |run| && Open(link, before) == (run[0], true)
    ensures run[i].Synced() <==> !PartedBefore(link, run, calls, i)
  {
    if i == 0 {
      OpenRewinds(link, before);
    } else {
      SyncedUntilParted(link, before, run, calls, i - 1);
      CursorsAfter(link, run[i - 1], calls[i - 1]);
      PartedStep(link, run, calls, i);
    }
  }

  lemma PartedStep(link: Link, run: seq<Session>, calls: seq<Call>, i: nat)
    requires 0 < link.outSize && 0 < i < |run| && |run| == |calls| + 1
    ensures PartedBefore(link, run, calls, i) <==>
      Parts(link, run[i - 1], calls[i - 1]) || (!Moves(link, run[i - 1], calls[i - 1]) && PartedBefore(link, run, calls, i - 1))
  {
    hide Parts, Moves;
    var last := i - 1;
    if Parts(link, run[last], calls[last]) {
      assert PartedAt(link, run, calls, last, i);
    } else {
      if j: nat :| PartedAt(link, run, calls, j, last) {
        assert !Moves(link, run[last], calls[last]) ==> PartedAt(link, run, calls, j, i);
      }
      if j: nat :| PartedAt(link, run, calls, j, i) {
        assert j < last && PartedAt(link, run, calls, j, last);
      }
    }
  }

  /**
    After a call that succeeded, in any run after an open, the cursors are together exactly if the
    call went to the device, or the last one before it that moved a cursor did not leave it apart.
   */
  lemma SyncedExactly(link: Link, before: Session, run: seq<Session>, calls: seq<Call>, i: nat)
    requires 0 < link.outSize && IsRun(link, run, calls) && i < |calls| && Open(link, before) == (run[0], true)
    requires Succeeds(link, run[i], calls[i])
    ensures run[i + 1].Synced() <==> Touches(run[i], calls[i]) || !PartedBefore(link, run, calls, i)
  {
    SyncedUntilParted(link, before, run, calls, i);
    CursorsAfter(link, run[i], calls[i]);
    hide Parts, PartedBefore, Perform;
  }

  // ----- what a read returns

  /** The left-over bytes are in the memory and in the buffer. */
  predicate Sound(link: Link, s: Session) {
    0 < s.left ==> s.left <= link.inSize && s.src + s.left <= link.size
  }

  /** The left-over bytes are those at the file position. */
  predicate Fresh(s: Session) {
    s.left == 0 || s.src == s.pos
  }

  lemma CallsKeepSound(link: Link, s: Session, c: Call)
    requires 0 < link.outSize && Sound(link, s)
    ensures Sound(link, Perform(link, s, c).0)
    ensures c.ReadCall? && Succeeds(link, s, c) ==> var p := Perform(link, s, c).1.value.piece; p.n == 0 || p.from + p.n <= link.size
  {
    if c.WriteCall? && Goes(link, s) {
      SendMoves(link, PutWrite(link, s, s.pos), |c.data|, 0, c.faults);
    }
  }

  /** Reads keep the left-over in step with the position; a write or a seek does exactly if it has none or stays where it is. */
  lemma CallsKeepFresh(link: Link, s: Session, c: Call)
    requires 0 < link.outSize && Fresh(s)
    ensures var s' := Perform(link, s, c).0; Fresh(s') <==> c.ReadCall? || s.left == 0 || s'.pos == s.pos
  {
    if c.WriteCall? && Goes(link, s) {
      SendMoves(link, PutWrite(link, s, s.pos), |c.data|, 0, c.faults);
    }
  }

  /** The bytes that a read returns, in a memory. */
  function Fetched(rx: seq<byte>, p: Piece): seq<byte>
    requires p.n == 0 || p.from + p.n <= |rx|
  {
    if p.n == 0 then [] else rx[p.from..p.from + p.n]
  }

  /** What a read returns is what is at the file position, whatever the memory holds. */
  ghost predicate Truthful(link: Link, s: Session, p: Piece)
    requires p.n == 0 || p.from + p.n <= link.size
  {
    forall rx: seq<byte> :: |rx| == link.size ==> p.n == 0 || (s.pos + p.n <= |rx| && Fetched(rx, p) == rx[s.pos..s.pos + p.n])
  }

  /** A memory of zeros with one other byte. */
  ghost function Marked(size: nat, q: nat): (rx: seq<byte>)
    ensures |rx| == size && forall i :: 0 <= i < size ==> rx[i] == if i == q then 1 else 0
  {
    seq(size, i requires 0 <= i => if i == q then 1 else 0)
  }

  lemma OnlyOwnPlace(size: nat, p: nat, q: nat, n: nat)
    requires 0 < n && p + n <= size && q + n <= size && p != q
    ensures Marked(size, p)[p..p + n] != Marked(size, p)[q..q + n]
  {
    var rx := Marked(size, p);
    assert rx[p..p + n][0] == rx[p] == 1 && rx[q..q + n][0] == rx[q] == 0;
  }

  /**
    A read that returns bytes returns those at the file position, for every memory, exactly if nothing was
    left over or the left-over bytes are from that position.
   */
  lemma ReadIsTruthfulExactly(link: Link, s: Session, count: nat, fault: bool)
    requires 0 < link.outSize && Sound(link, s) && Read(link, s, count, fault).1.Ok? && 0 < Read(link, s, count, fault).1.value.n
    ensures var p := Read(link, s, count, fault).1.value;
      && p.from + p.n <= link.size
      && (Truthful(link, s, p) <==> s.left == 0 || s.src == s.pos)
  {
    CallsKeepSound(link, s, ReadCall(count, fault));
    var p := Read(link, s, count, fault).1.value;
    assert p.from == if s.left == 0 then s.pos else s.src;
    if p.from != s.pos {
      var rx := Marked(link.size, p.from);
      if s.pos + p.n <= link.size {
        OnlyOwnPlace(link.size, p.from, s.pos, p.n);
      }
      assert |rx| == link.size && !(s.pos + p.n <= |rx| && Fetched(rx, p) == rx[s.pos..s.pos + p.n]);
    }
  }

  // ----- a stream of reads

  predicate OnlyReads(calls: seq<Call>) {
    forall i :: 0 <= i < |calls| ==> calls[i].ReadCall?
  }

  /** A read keeps the left-over sound and fresh, returns what is at the position, and moves it by as much. */
  lemma ReadGoesOn(link: Link, s: Session, count: nat, fault: bool)
    requires Sound(link, s) && Fresh(s)
    ensures var (s', r) := Read(link, s, count, fault);
      && Sound(link, s') && Fresh(s')
      && (if r.Ok? then r.value.from == s.pos && s'.pos == s.pos + r.value.n && r.value.n <= count else s'.pos == s.pos)
      && (r.Ok? && 0 < r.value.n ==> s.pos + r.value.n <= link.size)
  {
  }

  /** What the calls before the `k`-th returned, put together. */
  function Stream(link: Link, rx: seq<byte>, run: seq<Session>, calls: seq<Call>, k: nat): seq<byte>
    requires k <= |calls| && |run| == |calls| + 1 && OnlyReads(calls)
  {
    if k == 0 then [] else
      var r := Read(link, run[k - 1], calls[k - 1].count, calls[k - 1].fault).1;
      Stream(link, rx, run, calls, k - 1) +
      if r.Ok? && 0 < r.value.n && r.value.from + r.value.n <= |rx| then rx[r.value.from..r.value.from + r.value.n] else []
  }

  lemma StreamGrows(link: Link, rx: seq<byte>, run: seq<Session>, calls: seq<Call>, i: nat)
    requires 0 < link.outSize && IsRun(link, run, calls) && OnlyReads(calls) && i < |calls|
    ensures var (s, r) := Read(link, run[i], calls[i].count, calls[i].fault);
      && run[i + 1] == s
      && (r.Ok? && (r.value.n == 0 || r.value.from + r.value.n <= |rx|) ==>
            Stream(link, rx, run, calls, i + 1) == Stream(link, rx, run, calls, i) + Fetched(rx, r.value))
      && (r.Err? ==> Stream(link, rx, run, calls, i + 1) == Stream(link, rx, run, calls, i))
  {
    hide Read;
  }

  /** Whatever the counts, packet sizes and failures, reads on end return the memory from the first position to the last. */
  lemma {:induction false} ReadsAreTheMemory(link: Link, rx: seq<byte>, run: seq<Session>, calls: seq<Call>, k: nat)
    requires 0 < link.outSize && IsRun(link, run, calls) && OnlyReads(calls) && k <= |calls| && |rx| == link.size
    requires Sound(link, run[0]) && Fresh(run[0])
    ensures Sound(link, run[k]) && Fresh(run[k]) && run[0].pos <= run[k].pos <= Max(link.size, run[0].pos)
    ensures Stream(link, rx, run, calls, k) == if run[k].pos == run[0].pos then [] else rx[run[0].pos..run[k].pos]
  {
    hide Read, Perform, Stream, Sound, Fresh;
    if k == 0 {
      StreamStarts(link, rx, run, calls);
    } else {
      ReadsAreTheMemory(link, rx, run, calls, k - 1);
      ReadGoesOn(link, run[k - 1], calls[k - 1].count, calls[k - 1].fault);
      StreamGrows(link, rx, run, calls, k - 1);
      var (s, r) := Read(link, run[k - 1], calls[k - 1].count, calls[k - 1].fault);
      assert s == run[k];
      if r.Ok? && 0 < r.value.n {
        Glued(rx, run[0].pos, run[k - 1].pos, run[k].pos);
      } else {
        assert Stream(link, rx, run, calls, k - 1) + [] == Stream(link, rx, run, calls, k - 1);
      }
    }
  }

  lemma StreamStarts(link: Link, rx: seq<byte>, run: seq<Session>, calls: seq<Call>)
    requires |run| == |calls| + 1 && OnlyReads(calls)
    ensures Stream(link, rx, run, calls, 0) == []
  {
  }

  lemma Glued(rx: seq<byte>, a: nat, b: nat, c: nat)
    requires a <= b <= c <= |rx|
    ensures rx[a..b] + rx[b..c] == rx[a..c]
    ensures a == b ==> [] + rx[b..c] == rx[a..c]
  {
  }

  // ----- runs that show it

  /** Two bytes of memory, packets of up to two bytes, and every message but possibly one goes through. */
  ghost predicate Small(link: Link, lost: nat) {
    && link.size == link.inSize == link.outSize == 2
    && (link.replies(lost).Lost? || link.replies(lost) == Through(2))
    && forall t :: t != lost ==> link.replies(t) == Through(2)
  }

  const NoFault: nat -> bool := _ => false

  /** Opening the device and reading one byte of a packet of two. */
  function AfterOne(link: Link, rd: nat, wr: nat): (Session, Result<Piece>) {
    Read(link, Open(link, Opened(rd, wr, 0)).0, 1, false)
  }

  function OneLeft(): Session {
    Opened(2, 2, 5).(pos := 1, left := 1, src := 1)
  }

  lemma ReadsOne(link: Link, lost: nat, rd: nat, wr: nat)
    requires Small(link, lost) && 5 <= lost
    ensures Open(link, Opened(rd, wr, 0)) == (Opened(0, 0, 2), true)
    ensures AfterOne(link, rd, wr) == (OneLeft(), Ok(Piece(0, 1)))
  {
    var s := Opened(0, 0, 2);
    assert Open(link, Opened(rd, wr, 0)) == (s, true);
    FetchAll(link, s, 2);
    hide Open, Fetch;
  }

  /** A fetch whose three messages go through. */
  lemma FetchAll(link: Link, s: Session, n: nat)
    requires link.replies(s.tick).Through? && link.replies(s.tick + 1).Through? && link.replies(s.tick + 2).Through?
    requires n == Min(Min(link.replies(s.tick + 1).n, link.inSize), Max(0, link.size - s.pos))
    ensures Fetch(link, s) == (s.(rd := s.pos + n, wr := s.pos + n, tick := s.tick + 3), Ok(n))
  {
  }

  /** After that and seeking to any place, a read returns the second byte, which is at that place only if it is 1. */
  lemma StaleAfterSeek(link: Link, lost: nat, rd: nat, wr: nat, place: nat, whence: int)
    requires Small(link, lost) && 8 <= lost && place <= 2 && whence == 0
    ensures AfterOne(link, rd, wr) == (OneLeft(), Ok(Piece(0, 1)))
    ensures var (s2, r2) := Seek(link, OneLeft(), place, whence);
      r2 == Ok(place) && s2.pos == place && Read(link, s2, 1, false).1 == Ok(Piece(1, 1))
  {
    ReadsOne(link, lost, rd, wr);
    hide AfterOne, Fetch;
    assert Target(link.size, 0, place) == place;
    hide Target;
  }

  /** After a write the position is behind what was written, but the next read still returns the left-over byte. */
  lemma StaleAfterWrite(link: Link, lost: nat, rd: nat, wr: nat)
    requires Small(link, lost) && 8 <= lost
    ensures AfterOne(link, rd, wr) == (OneLeft(), Ok(Piece(0, 1)))
    ensures var (s2, r2) := Write(link, OneLeft(), 1, NoFault);
      r2 == Ok(1) && s2.pos == 2 && Read(link, s2, 1, false).1 == Ok(Piece(1, 1))
  {
    ReadsOne(link, lost, rd, wr);
    hide AfterOne, Fetch, Send;
    var s1 := AfterOne(link, rd, wr).0;
    WriteOne(link, s1);
    hide Write;
  }

  /** A transfer of a single byte moves it, unless it is lost. */
  lemma SendOne(link: Link, s: Session)
    requires 0 < link.outSize
    ensures Send(link, s, 1, 0, NoFault) ==
      if Goes(link, s) then (Ticked(s).(wr := s.wr + 1, sent := s.sent + 1), Ok(1)) else (Ticked(s).(failures := s.failures + 1), Err(EIO))
  {
    hide Goes;
    if Goes(link, s) {
      assert Taken(link, s, Min(link.outSize, 1)) == 1;
      hide Taken;
    }
  }

  /** A write of a single byte, once the first message has gone through. */
  lemma WriteOne(link: Link, s: Session)
    requires 0 < link.outSize && Goes(link, s)
    ensures var s1 := Ticked(Ticked(s));
      Write(link, s, 1, NoFault) ==
        if !Goes(link, Ticked(s)) then (s1.(wr := s.pos, failures := s.failures + 1), Err(EIO))
        else
          var s2 := s1.(wr := s.pos + 1, sent := s.sent + 1, pos := s.pos + 1, successes := s.successes + 1);
          (PutRead(link, s2, s2.pos), if Goes(link, s2) then Ok(1) else Err(EIO))
  {
    SendOne(link, PutWrite(link, s, s.pos));
    hide Send;
  }

  /** A read of left-over bytes succeeds with the cursors apart, because the transfer of the write before it was lost. */
  lemma LeftOverReadApart(link: Link, lost: nat, rd: nat, wr: nat)
    requires Small(link, lost) && lost == 6 && link.replies(lost).Lost?
    ensures AfterOne(link, rd, wr) == (OneLeft(), Ok(Piece(0, 1))) && OneLeft().Synced()
    ensures var (s2, r2) := Write(link, OneLeft(), 1, NoFault);
      var (s3, r3) := Read(link, s2, 1, false);
      r2 == Err(EIO) && r3 == Ok(Piece(1, 1)) && s3.rd == 2 && s3.wr == 1
  {
    ReadsOne(link, lost, rd, wr);
    hide AfterOne, Fetch, Send;
    var s1 := AfterOne(link, rd, wr).0;
    WriteOne(link, s1);
    hide Write;
  }
}
