/** A buffered reader over a seekable source. It must be indistinguishable from the source read directly. */
module ReadSeeker {

  type Byte = b: int | 0 <= b < 256

  const MIN_INT64 := -0x8000_0000_0000_0000
  const MAX_INT64 := 0x7fff_ffff_ffff_ffff
  const DEFAULT_BUFFER_SIZE := 4096

  type Int64 = x: int | MIN_INT64 <= x <= MAX_INT64

  /** What 64-bit two's complement addition makes of the sum x of two 64-bit numbers. */
  function Wrap(x: int): (r: Int64)
    requires 2 * MIN_INT64 <= x <= 2 * MAX_INT64 + 1
    ensures r == x || r == x - 0x1_0000_0000_0000_0000 || r == x + 0x1_0000_0000_0000_0000
  {
    if x > MAX_INT64 then x - 0x1_0000_0000_0000_0000
    else if x < MIN_INT64 then x + 0x1_0000_0000_0000_0000
    else x
  }

  datatype Error = NoError | EOF | Failed

  const SEEK_START := 0
  const SEEK_CURRENT := 1
  const SEEK_END := 2

  /** Where a seek from position pos in content of the given size goes; whence 0, 1 and 2 are the known ones. */
  function Target(size: nat, pos: int, offset: int, whence: int): int {
    if whence == SEEK_START then offset
    else if whence == SEEK_CURRENT then pos + offset
    else if whence == SEEK_END then size + offset
    else -1
  }

  /** Positions a source can take. */
  predicate Reachable(target: int) { 0 <= target <= MAX_INT64 }

  /** The built-in copy: as many bytes as both sides have room for; the rest of dest stays. */
  method Copy(dest: array<Byte>, data: seq<Byte>) returns (n: nat)
    modifies dest
    ensures n == if dest.Length <= |data| then dest.Length else |data|
    ensures dest[..n] == data[..n] && dest[n..] == old(dest[n..])
  {
    n := if dest.Length <= |data| then dest.Length else |data|;
    for i := 0 to n
      invariant forall j | 0 <= j < i :: dest[j] == data[j]
      invariant forall j | i <= j < dest.Length :: dest[j] == old(dest[j])
    {
      dest[i] := data[i];
    }
  }

  /** The bytes in unread are the content just before position pos. */
  ghost predicate Ahead(content: seq<Byte>, pos: int, unread: seq<Byte>) {
    |unread| <= pos && (unread != [] ==> pos <= |content| && unread == content[pos - |unread|..pos])
  }

  /** Consuming the first k unread bytes yields the content at the caller's position and keeps the rest ahead of it. */
  lemma Consume(content: seq<Byte>, pos: int, unread: seq<Byte>, k: nat)
    requires Ahead(content, pos, unread) && k <= |unread|
    ensures Ahead(content, pos, unread[k..])
    ensures k > 0 ==> unread[..k] == content[pos - |unread|..pos - |unread| + k]
  {
    if unread != [] {
      var start := pos - |unread|;
      assert content[start..pos][k..] == content[start + k..pos];
      assert content[start..pos][..k] == content[start..start + k];
    }
  }

  /** Any io.ReadSeeker of fixed content: reads may be short, and any call may fail. When `full` is set, reads fill
      the slice while content remains; when `reliable` is set, seeks to positions in range succeed. */
  class Source {
    const content: seq<Byte>
    const full: bool
    const reliable: bool
    var pos: nat
    var readCount: nat
    ghost var lastCount: nat    // what the last read returned
    ghost var lastError: Error

    ghost predicate Valid() reads this { pos <= MAX_INT64 }

    constructor (content: seq<Byte>, full: bool, reliable: bool)
      ensures Valid() && this.content == content && this.full == full && this.reliable == reliable
      ensures pos == 0 && readCount == 0
    {
      this.content := content;
      this.full := full;
      this.reliable := reliable;
      pos := 0;
      readCount := 0;
      lastCount, lastError := 0, NoError;
    }

    /** Copies n bytes at the position to the front of dest and moves on; the rest of dest is not promised. */
    method Read(dest: array<Byte>) returns (n: nat, err: Error)
      requires Valid() && |content| <= MAX_INT64
      modifies this, dest
      ensures Valid()
      ensures n <= dest.Length && pos == old(pos) + n && readCount == old(readCount) + 1
      ensures n > 0 ==> pos <= |content| && dest[..n] == content[old(pos)..pos]
      ensures err == EOF ==> |content| <= pos
      ensures |content| <= old(pos) ==> n == 0 && err == EOF
      ensures lastCount == n && lastError == err
      ensures full && old(pos) < |content| ==>
                err == NoError && n == (if dest.Length <= |content| - old(pos) then dest.Length
                                        else |content| - old(pos))
    {
      var available := if pos < |content| then |content| - pos else 0;
      var most := if dest.Length <= available then dest.Length else available;
      if full { n := most; } else { n :| n <= most; }
      ghost var data := if n > 0 then content[pos..pos + n] else [];
      var copied := Copy(dest, if n > 0 then content[pos..pos + n] else []);
      assert n > 0 ==> dest[..n] == data[..n] == data;
      pos := pos + n;
      readCount := readCount + 1;
      err := NoError;
      if available == 0 { err := EOF; }
      else if !full { if * { err := Failed; } else if pos == |content| { if * { err := EOF; } } }
      lastCount, lastError := n, err;
    }

    /** Moves to the target if that is a position in range; a failing call leaves the position alone. */
    method Seek(offset: Int64, whence: int) returns (at: Int64, err: Error)
      requires Valid() && |content| <= MAX_INT64
      modifies this`pos
      ensures Valid()
      ensures var target := Target(|content|, old(pos), offset, whence);
              && (err == NoError ==> Reachable(target) && pos == target && at == target)
              && (err != NoError ==> pos == old(pos))
              && (reliable && Reachable(target) ==> err == NoError)
    {
      var target := Target(|content|, pos, offset, whence);
      at, err := 0, Failed;
      if Reachable(target) {
        var fails: bool := *;
        if reliable || !fails {
          pos := target;
          at, err := target, NoError;
        }
      }
    }
  }

  class ReadSeeker {
    const buf: array<Byte>
    const source: Source
    var off: int
    var end: int

    /** The unread part of the buffer is the content just before the source's own position. */
    ghost predicate Valid()
      reads this, buf, source
    {
      && buf.Length > 0
      && source.Valid() && |source.content| <= MAX_INT64
      && 0 <= off <= end <= buf.Length
      && Ahead(source.content, source.pos, buf[off..end])
    }

    /** Where the caller is: behind the source by the bytes buffered and not yet consumed. */
    function Position(): int
      reads this, source
    {
      source.pos - (end - off)
    }

    constructor (source: Source, size: int)
      requires source.Valid() && |source.content| <= MAX_INT64
      ensures Valid() && this.source == source && fresh(buf)
      ensures buf.Length == if size <= 0 then 4096 else size
      ensures Position() == source.pos && off == end == 0
    {
      var length := if size <= 0 then DEFAULT_BUFFER_SIZE else size;
      this.buf := new Byte[length](_ => 0);
      this.source := source;
      off, end := 0, 0;
    }

    /** Serve what is buffered: copy(dest, buf[off..end]), then move off. */
    method Serve(dest: array<Byte>) returns (n: nat)
      requires Valid() && dest != buf && off < end && dest.Length > 0
      modifies this`off, dest
      ensures Valid()
      ensures n == (if dest.Length <= end - old(off) then dest.Length else end - old(off))
      ensures off == old(off) + n
      ensures Position() <= |source.content| && dest[..n] == source.content[old(Position())..Position()]
    {
      ghost var unread := buf[off..end];
      n := Copy(dest, buf[off..end]);
      Consume(source.content, source.pos, unread, n);
      off := off + n;
      assert buf[off..end] == unread[n..];
    }

    /** Delivers the bytes at the caller's position and advances it by their number, like a read of the source. */
    method Read(dest: array<Byte>) returns (n: nat, err: Error)
      requires Valid() && dest != buf
      modifies this`off, this`end, buf, source, dest
      ensures Valid()
      ensures n <= dest.Length && Position() == old(Position()) + n
      ensures n > 0 ==> Position() <= |source.content| && dest[..n] == source.content[old(Position())..Position()]
      ensures err == EOF ==> |source.content| <= Position()
      ensures dest.Length == 0 ==> n == 0 && err == NoError
      ensures dest.Length > 0 && |source.content| <= old(Position()) ==> n == 0 && err == EOF
      // the source's own answer, or bytes and no error
      ensures dest.Length > 0 && n == 0 ==> source.readCount > old(source.readCount) && err == source.lastError
      ensures old(off == end) && dest.Length >= buf.Length ==> n == source.lastCount && err == source.lastError
      ensures n > 0 && (old(off < end) || dest.Length < buf.Length) ==> err == NoError
      ensures source.full && dest.Length > 0 && old(Position()) < |source.content| ==> n > 0 && err == NoError
      ensures n > 0 && 0 < dest.Length < buf.Length ==> off > 0
      // the cost in reads of the source
      ensures old(off < end) || dest.Length == 0 ==>
                source.readCount == old(source.readCount) && source.pos == old(source.pos)
      ensures old(off == end) && dest.Length > 0 ==> source.readCount == old(source.readCount) + 1
      ensures 0 < dest.Length < buf.Length ==> end - off < buf.Length
      ensures source.full && 0 < dest.Length < buf.Length && old(off == end) && old(Position()) < |source.content| ==>
                source.pos == (if buf.Length <= |source.content| - old(source.pos) then old(source.pos) + buf.Length
                               else |source.content|)
    {
      if dest.Length == 0 { return 0, NoError; }
      if off < end {
        n := Serve(dest);
        return n, NoError;
      }
      if dest.Length >= buf.Length {
        n, err := source.Read(dest);
        return n, err;
      }
      n, err := source.Read(buf);
      if n > 0 {
        off := 0;
        end := n;
        assert buf[off..end] == buf[..n];
        var copied := Serve(dest);
        return copied, NoError;
      }
      return 0, err;
    }

    /** The seek is answered from the buffer when it is a small step forward; otherwise the buffer is dropped. */
    method Seek(offset: Int64, whence: int) returns (at: Int64, err: Error)
      requires Valid() && buf.Length <= MAX_INT64
      modifies this`off, this`end, source`pos
      ensures var target := Target(|source.content|, old(Position()), offset, whence);
              var wraps := whence == SEEK_CURRENT && old(off) + offset > MAX_INT64;
              && (Valid() <==> !wraps)
              && (!wraps && err == NoError ==> Reachable(target) && Position() == target && at == target)
              && (!wraps && source.reliable && Reachable(target) ==> err == NoError)
              && (!wraps && err != NoError ==> source.pos == old(source.pos))
              && (wraps ==> off < 0)
      ensures !(whence == 1 && old(off) + offset > 0x7fff_ffff_ffff_ffff) && err == NoError ==>
                && at >= 0
                && ((whence == 0 && at == offset)
                    || (whence == 1 && at == old(Position()) + offset)
                    || (whence == 2 && at == |source.content| + offset))
      // a failed seek moves the caller forward, over some or all of the bytes that were buffered
      ensures var wraps := whence == SEEK_CURRENT && old(off) + offset > MAX_INT64;
              !wraps && err != NoError ==>
                && Position() == (if whence == SEEK_CURRENT && 0 <= offset <= old(end - off)
                                  then old(Position()) + offset else old(source.pos))
                && (Position() == old(Position()) <==> old(off == end) || (whence == SEEK_CURRENT && offset == 0))
    {
      var adjusted: Int64 := offset;
      if whence == SEEK_CURRENT {
        if offset >= 0 {
          var newOff := Wrap(off + offset);
          if newOff <= end {
            ghost var skipped := newOff - off;
            assert 0 <= skipped <= end - off ==> buf[off..end][skipped..] == buf[newOff..end];
            off := newOff;
            var pos, seekErr := source.Seek(0, SEEK_CURRENT);
            if seekErr != NoError { return 0, seekErr; }
            return Wrap(pos - (end - off)), NoError;
          }
        }
        adjusted := Wrap(offset - (end - off));
      }
      off := 0;
      end := 0;
      at, err := source.Seek(adjusted, whence);
    }
  }

  // ---------- Whole sessions ----------

  datatype Request = ReadUpTo(size: nat) | SeekTo(offset: Int64, whence: int)

  datatype Answer = Delivered(bytes: seq<Byte>, err: Error) | Sought(at: Int64) | Refused

  /** What a reader of the content may answer at position pos, and where it is afterwards. A seek that is refused moves
      it forward by at most `slack` bytes, which is 0 for a reader without a buffer. When `full` is set, a read that
      asks for something gets something as long as there is content. */
  ghost predicate Answers(content: seq<Byte>, slack: nat, full: bool, pos: int, request: Request, answer: Answer,
                          pos': int)
  {
    match (request, answer)
    case (ReadUpTo(size), Delivered(bytes, err)) =>
      && |bytes| <= size && pos' == pos + |bytes|
      && (bytes != [] ==> 0 <= pos && pos' <= |content| && bytes == content[pos..pos'])
      && (err == EOF ==> |content| <= pos')
      && (size == 0 ==> bytes == [])
      && (full && size > 0 && pos < |content| ==> bytes != [] && err == NoError)
      && (size > 0 && |content| <= pos ==> bytes == [] && err == EOF)
    case (SeekTo(offset, whence), Sought(at)) =>
      at == pos' == Target(|content|, pos, offset, whence) && Reachable(pos')
    case (SeekTo(_, _), Refused) => pos <= pos' <= pos + slack
    case _ => false
  }

  /** On a source whose seeks are reliable only seeks out of range are refused. */
  ghost predicate RefusedForRange(content: seq<Byte>, pos: int, request: Request, answer: Answer) {
    request.SeekTo? && answer.Refused? ==> !Reachable(Target(|content|, pos, request.offset, request.whence))
  }

  ghost predicate AnsweredSession(content: seq<Byte>, slack: nat, full: bool, reliable: bool, positions: seq<int>,
                                  requests: seq<Request>, answers: seq<Answer>) {
    && |answers| <= |requests| && |positions| == |answers| + 1
    && (forall i | 0 <= i < |answers| ::
        Answers(content, slack, full, positions[i], requests[i], answers[i], positions[i + 1]))
    && (reliable ==> forall i | 0 <= i < |answers| :: RefusedForRange(content, positions[i], requests[i], answers[i]))
  }

  /** The source itself, without a buffer in front of it, answers so with no slack. */
  method DirectSession(source: Source, requests: seq<Request>) returns (answers: seq<Answer>, ghost positions: seq<int>)
    requires source.Valid() && |source.content| <= MAX_INT64
    modifies source
    ensures source.Valid() && |answers| == |requests|
    ensures AnsweredSession(source.content, 0, source.full, source.reliable, positions, requests, answers)
    ensures positions[0] == old(source.pos) && positions[|answers|] == source.pos
  {
    answers, positions := [], [source.pos];
    for i := 0 to |requests|
      invariant source.Valid() && |answers| == i
      invariant AnsweredSession(source.content, 0, source.full, source.reliable, positions, requests, answers)
      invariant positions[0] == old(source.pos) && positions[i] == source.pos
    {
      var answer;
      match requests[i] {
        case ReadUpTo(size) =>
          var dest := new Byte[size](_ => 0);
          var n, err := source.Read(dest);
          answer := Delivered(dest[..n], err);
        case SeekTo(offset, whence) =>
          var at, err := source.Seek(offset, whence);
          answer := if err == NoError then Sought(at) else Refused;
      }
      answers, positions := answers + [answer], positions + [source.pos];
    }
  }

  /** One request to the buffered reader. */
  method Reply(rs: ReadSeeker, request: Request) returns (answer: Answer)
    requires rs.Valid() && rs.buf.Length <= MAX_INT64
    requires request.SeekTo? && request.whence == SEEK_CURRENT ==> rs.off + request.offset <= MAX_INT64
    modifies rs, rs.buf, rs.source
    ensures rs.Valid()
    ensures Answers(rs.source.content, rs.buf.Length, rs.source.full, old(rs.Position()), request, answer,
                    rs.Position())
    ensures rs.source.reliable ==> RefusedForRange(rs.source.content, old(rs.Position()), request, answer)
  {
    match request {
      case ReadUpTo(size) =>
        var dest := new Byte[size](_ => 0);
        var n, err := rs.Read(dest);
        answer := Delivered(dest[..n], err);
      case SeekTo(offset, whence) =>
        var at, err := rs.Seek(offset, whence);
        answer := if err == NoError then Sought(at) else Refused;
    }
  }

  /** Every run of reads and seeks is answered as the source alone would answer it, except that a refused seek may cost
      the buffered bytes. The run ends early only before a seek whose addition overflows, which Seek does not
      survive. */
  method Session(rs: ReadSeeker, requests: seq<Request>) returns (answers: seq<Answer>, ghost positions: seq<int>)
    requires rs.Valid() && rs.buf.Length <= MAX_INT64
    modifies rs, rs.buf, rs.source
    ensures rs.Valid()
    ensures AnsweredSession(rs.source.content, rs.buf.Length, rs.source.full, rs.source.reliable,
                            positions, requests, answers)
    ensures positions[0] == old(rs.Position()) && positions[|answers|] == rs.Position()
    ensures |answers| < |requests| ==>
              var r := requests[|answers|];
              r.SeekTo? && r.whence == SEEK_CURRENT && rs.off + r.offset > MAX_INT64
  {
    hide Answers, RefusedForRange;
    answers, positions := [], [rs.Position()];
    for i := 0 to |requests|
      invariant rs.Valid() && |answers| == i
      invariant AnsweredSession(rs.source.content, rs.buf.Length, rs.source.full, rs.source.reliable,
                            positions, requests, answers)
      invariant positions[0] == old(rs.Position()) && positions[i] == rs.Position()
    {
      var r := requests[i];
      if r.SeekTo? && r.whence == SEEK_CURRENT && rs.off + r.offset > MAX_INT64 { return; }
      var answer := Reply(rs, r);
      answers, positions := answers + [answer], positions + [rs.Position()];
    }
  }

  // ---------- Seeks that do harm ----------

  /** Three bytes, a buffer of four, and the first byte read: two bytes are buffered. */
  method OneByteRead() returns (rs: ReadSeeker)
    ensures fresh(rs) && fresh(rs.buf) && fresh(rs.source) && rs.Valid()
    ensures rs.source.content == [1, 2, 3] && rs.buf.Length == 4
    ensures rs.Position() == 1 && rs.source.pos == 3 && rs.off > 0
  {
    var source := new Source([1, 2, 3], true, true);
    rs := new ReadSeeker(source, 4);
    var dest := new Byte[1](_ => 0);
    var n, err := rs.Read(dest);
  }

  /** A step forward by the largest 64-bit number leaves a negative buffer offset. */
  method OverflowingSeekBreaks() returns (rs: ReadSeeker)
    ensures !rs.Valid() && rs.off < 0
  {
    rs := OneByteRead();
    var at, err := rs.Seek(MAX_INT64, SEEK_CURRENT);
  }

  /** A step back before the start is refused, and the caller, who was at 1, is at 3. */
  method RefusedSeekMoves() returns (rs: ReadSeeker, before: int, err: Error)
    ensures rs.Valid() && err != NoError && before == 1 && rs.Position() == 3
  {
    rs := OneByteRead();
    before := rs.Position();
    var at;
    at, err := rs.Seek(-5, SEEK_CURRENT);
  }

  // ---------- What buffering saves ----------

  /** The number of blocks of size b that it takes to hold t. */
  function Blocks(t: nat, b: nat): nat
    requires b > 0
  {
    (t + b - 1) / b
  }

  lemma BlocksAre(t: nat, b: nat, c: nat)
    requires b > 0 && t <= c * b && (c > 0 ==> (c - 1) * b < t)
    ensures c == Blocks(t, b)
  {
    if c > 0 {
      assert c * b <= t + b - 1 < (c + 1) * b by { assert (c - 1) * b == c * b - b && (c + 1) * b == c * b + b; }
      QuotientIs(t + b - 1, b, c);
    } else {
      QuotientIs(b - 1, b, 0);
    }
  }

  lemma QuotientIs(x: nat, b: nat, c: nat)
    requires b > 0 && c * b <= x < (c + 1) * b
    ensures x / b == c
  {
    var q := x / b;
    assert q * b <= x < q * b + b;
    assert (c + 1) * b == c * b + b;
    if q != c { FartherApart(q, c, b); }
  }

  lemma FartherApart(p: nat, q: nat, b: nat)
    requires p != q
    ensures p * b >= q * b + b || q * b >= p * b + b
  {
    if p > q { Multiples(p, q + 1, b); } else { Multiples(q, p + 1, b); }
  }

  lemma Multiples(p: nat, q: nat, b: nat)
    requires p >= q
    ensures p * b >= q * b && (q + 1) * b == q * b + b
  {
  }

  /** On a source that fills the slice, t bytes that are there, delivered from an empty buffer of size B by
      non-empty reads shorter than B, cost exactly t / B reads of the source, rounded up. */
  method DeliverInSmallReads(rs: ReadSeeker, sizes: seq<nat>) returns (t: nat)
    requires rs.Valid() && rs.source.full && rs.off == rs.end
    requires forall size | size in sizes :: 0 < size < rs.buf.Length
    modifies rs, rs.buf, rs.source
    ensures rs.Valid() && rs.Position() == old(rs.Position()) + t
    ensures rs.source.readCount == old(rs.source.readCount) + Blocks(t, rs.buf.Length)
    ensures t >= |sizes| || rs.Position() >= |rs.source.content|
  {
    ghost var b := rs.buf.Length;
    ghost var calls, full := 0, 0;
    var start := rs.Position();
    t := 0;
    for i := 0 to |sizes|
      invariant rs.Valid() && rs.Position() == start + t
      invariant rs.source.readCount == old(rs.source.readCount) + calls
      invariant full == calls * b && t >= i
      invariant t <= rs.source.pos - start <= full
      invariant rs.source.pos == start + full || rs.source.pos == |rs.source.content|
      invariant calls > 0 ==> full - b < t
    {
      if rs.Position() >= |rs.source.content| { break; }
      assert sizes[i] in sizes;
      ghost var empty := rs.off == rs.end;
      var dest := new Byte[sizes[i]](_ => 0);
      var n, err := rs.Read(dest);
      t := t + n;
      if empty {
        assert (calls + 1) * b == calls * b + b;
        calls, full := calls + 1, full + b;
      }
    }
    assert calls > 0 ==> (calls - 1) * b == full - b;
    BlocksAre(t, b, calls);
  }
}
