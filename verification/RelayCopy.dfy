/** One direction of a relay, as the code runs it, and as a run of the transition system. */
module RelayCopy {
  import opened Bytes
  import opened Wrappers
  import opened Streams
  import opened RelayTable
  import opened RelayModel
  import RelayServer

  // ---------------------------------------------------------------- the code

  const COPY_BUFFER := 32 * 1024

  /** One turn: read, then write what was read. */
  method CopyTurn(dst: Sink, src: Stream, buf: array<byte>) returns (k: nat, put: nat, eof: bool)
    requires buf.Length > 0
    modifies dst, src, buf
    ensures k <= |old(src.rest)| && src.rest == old(src.rest)[k..]
    ensures put == Min(k, old(dst.room)) && dst.room == old(dst.room) - put
    ensures dst.written == old(dst.written) + old(src.rest)[..put]
    ensures eof ==> src.rest == []
    ensures k == 0 ==> eof || |src.plan| < |old(src.plan)|
    ensures |src.plan| <= |old(src.plan)|
  {
    ghost var rest := src.rest;
    k, eof := src.Read(buf, 0);
    put := 0;
    if k > 0 {
      assert buf[..k] == rest[..k];
      put := Min(k, dst.room);
      var ok := dst.Write(buf[..k]);
      assert rest[..k][..put] == rest[..put];
    }
  }

  function Sum(cuts: seq<nat>): (n: nat) {
    if cuts == [] then 0 else Sum(cuts[..|cuts| - 1]) + cuts[|cuts| - 1]
  }

  /** `cuts` are the sizes of the reads of a copy of `len` bytes into a target with `room`:
      all of the source, or up to the read that does not fit. */
  predicate Reads(cuts: seq<nat>, len: nat, room: nat, failed: bool) {
    && (forall i :: 0 <= i < |cuts| ==> cuts[i] > 0)
    && Sum(cuts) <= len
    && if failed then cuts != [] && Sum(cuts[..|cuts| - 1]) <= room < Sum(cuts) else Sum(cuts) == len <= room
  }

  /** Where a copy of `all` stands: `n` bytes written, `rest` to come, `cuts` read. */
  ghost predicate Copying(all: seq<byte>, room: nat, cuts: seq<nat>, n: nat, failed: bool, rest: seq<byte>) {
    && n <= |all| && n <= room && (forall i :: 0 <= i < |cuts| ==> cuts[i] > 0)
    && if failed then n == room && cuts != [] && Sum(cuts[..|cuts| - 1]) <= room < Sum(cuts) <= |all|
       else Sum(cuts) == n && rest == all[n..]
  }

  lemma CopyingOn(all: seq<byte>, room: nat, cuts: seq<nat>, n: nat, k: nat)
    requires n + k <= |all| && Copying(all, room, cuts, n, false, all[n..])
    ensures var put := Min(k, room - n);
            && all[..n] + all[n..][..put] == all[..n + put] && all[n..][k..] == all[n + k..]
            && Copying(all, room, if k > 0 then cuts + [k] else cuts, n + put, put < k, all[n + k..])
  {
    Onward(all, n, k, Min(k, room - n));
    assert (cuts + [k])[..|cuts|] == cuts;
  }

  lemma CopyingNow(all: seq<byte>, room: nat, cuts: seq<nat>, n: nat, rest: seq<byte>)
    requires Copying(all, room, cuts, n, false, rest)
    ensures n <= |all| && n <= room && rest == all[n..]
  {
  }

  lemma CopyStarts(all: seq<byte>, room: nat)
    ensures Copying(all, room, [], 0, false, all)
  {
  }

  lemma CopyDone(all: seq<byte>, room: nat, cuts: seq<nat>, n: nat, failed: bool, rest: seq<byte>)
    requires Copying(all, room, cuts, n, failed, rest) && (!failed ==> rest == [])
    ensures n == Min(|all|, room) && (failed <==> |all| > room) && Reads(cuts, |all|, room, failed)
  {
  }

  /** `io.Copy`: every byte read is written before the end of the source is looked at, so
      nothing is dropped unless the target breaks; the count is what was written. */
  method Copy(dst: Sink, src: Stream) returns (n: nat, failed: bool, ghost cuts: seq<nat>)
    modifies dst, src
    ensures n == Min(|old(src.rest)|, old(dst.room))
    ensures dst.written == old(dst.written) + old(src.rest)[..n] && dst.room == old(dst.room) - n
    ensures failed <==> |old(src.rest)| > old(dst.room)
    ensures !failed ==> src.rest == []
    ensures Reads(cuts, |old(src.rest)|, old(dst.room), failed)
  {
    ghost var all, room := src.rest, dst.room;
    var buf := new byte[COPY_BUFFER];
    var eof := false;
    n, failed, cuts := 0, false, [];
    CopyStarts(all, room);
    hide Copying, Reads;
    while !eof && !failed
      invariant Copying(all, room, cuts, n, failed, src.rest)
      invariant dst.room == room - n && dst.written == old(dst.written) + all[..n]
      invariant eof && !failed ==> src.rest == []
      decreases !eof, !failed, |src.rest| + |src.plan|
    {
      CopyingNow(all, room, cuts, n, src.rest);
      var k, put;
      k, put, eof := CopyTurn(dst, src, buf);
      CopyingOn(all, room, cuts, n, k);
      cuts := if k > 0 then cuts + [k] else cuts;
      n, failed := n + put, put < k;
    }
    CopyDone(all, room, cuts, n, failed, src.rest);
  }

  lemma Onward(all: seq<byte>, n: nat, k: nat, put: nat)
    requires put <= k && n + k <= |all|
    ensures all[..n] + all[n..][..put] == all[..n + put] && all[n..][k..] == all[n + k..]
  {
  }

  /** One goroutine of `relaySession`: copy, count, close the target. */
  method Forward(server: RelayServer.Server, session: RelayServer.Session, target: RelayServer.Conn, dst: Sink, src: Stream)
    returns (n: nat, failed: bool, ghost cuts: seq<nat>)
    requires server.Valid() && session in server.made
    modifies dst, src, target, session`bytes, server`table
    ensures server.Valid() && session.ref < |old(server.table).store|
    ensures n == Min(|old(src.rest)|, old(dst.room)) && Reads(cuts, |old(src.rest)|, old(dst.room), failed)
    ensures dst.written == old(dst.written) + old(src.rest)[..n]
    ensures server.table == AddBytes(old(server.table), session.ref, n) && !target.open
  {
    hide RelayServer.Server.Valid, Reads;
    n, failed, cuts := Copy(dst, src);
    server.AddBytes(session, n);
    target.Close();
  }

  // ---------------------------------------------------------------- the steps

  /** The handler relays, and its copy in direction `dir`, between open connections, is
      between a write and a read. */
  predicate Ready(s: State, c: ConnId, dir: Direction) {
    && At(s, c) && s.pcs[c].Relaying? && CopyOf(s.pcs[c], dir).Running? && CopyOf(s.pcs[c], dir).held == []
    && s.pcs[c].a != s.pcs[c].b && s.pcs[c].a < |s.conns| && s.pcs[c].b < |s.conns|
    && s.conns[s.pcs[c].a].open && s.conns[s.pcs[c].b].open
    && s.conns[Source(s.pcs[c], dir)].taken <= |s.conns[Source(s.pcs[c], dir)].input|
  }

  /** The state after `total` bytes have been read, and the first `put` of them written. */
  function Copied(s: State, c: ConnId, dir: Direction, total: nat, put: nat, failed: bool): State
    requires Ready(s, c, dir)
    requires var from := s.conns[Source(s.pcs[c], dir)]; put <= total <= |from.input| - from.taken
  {
    var pc := s.pcs[c];
    var src, dst, n := Source(pc, dir), Target(pc, dir), CopyOf(pc, dir).n;
    var from, to := s.conns[src], s.conns[dst];
    var data := from.input[from.taken..from.taken + put];
    State(s.table,
          s.pcs[c := WithCopy(pc, dir, if failed then Failed(n + put) else Running(n + put, []))],
          s.conns[src := from.(taken := from.taken + total)][dst := to.(out := to.out + data, fwd := to.fwd + data)])
  }

  /** One turn is a read step and a write step. */
  lemma TurnIsTwoSteps(s0: State, before: seq<Step>, s: State, c: ConnId, dir: Direction, done: nat, got: nat, put: nat)
    returns (steps: seq<Step>)
    requires Ready(s, c, dir) && put <= got && got > 0
    requires var from := s.conns[Source(s.pcs[c], dir)]; done + got <= |from.input| - from.taken
    requires Run(s0, before) == Some(Copied(s, c, dir, done, done, false))
    ensures Run(s0, steps) == Some(Copied(s, c, dir, done + got, done + put, put < got))
  {
    var at, held := Copied(s, c, dir, done, done, false), Holding(s, c, dir, done, got);
    TurnTakes(s, c, dir, done, got);
    TurnPuts(s, c, dir, done, got, put);
    hide *;
    steps := Extend(s0, before, at, Take(c, dir, got), held);
    steps := Extend(s0, steps, held, Put(c, dir, put), Copied(s, c, dir, done + got, done + put, put < got));
  }

  /** The state within a turn: `done` bytes copied, `got` more read and not written. */
  function Holding(s: State, c: ConnId, dir: Direction, done: nat, got: nat): State
    requires Ready(s, c, dir)
    requires var from := s.conns[Source(s.pcs[c], dir)]; done + got <= |from.input| - from.taken
  {
    var at := Copied(s, c, dir, done, done, false);
    var src := Source(s.pcs[c], dir);
    var from := s.conns[src];
    var held := from.input[from.taken + done..from.taken + done + got];
    State(s.table,
          at.pcs[c := WithCopy(s.pcs[c], dir, Running(CopyOf(s.pcs[c], dir).n + done, held))],
          at.conns[src := from.(taken := from.taken + done + got)])
  }

  lemma TurnTakes(s: State, c: ConnId, dir: Direction, done: nat, got: nat)
    requires Ready(s, c, dir) && got > 0
    requires var from := s.conns[Source(s.pcs[c], dir)]; done + got <= |from.input| - from.taken
    ensures var at := Copied(s, c, dir, done, done, false);
            Enabled(at, Take(c, dir, got)) && Apply(at, Take(c, dir, got)) == Holding(s, c, dir, done, got)
  {
  }

  lemma TurnPuts(s: State, c: ConnId, dir: Direction, done: nat, got: nat, put: nat)
    requires Ready(s, c, dir) && put <= got && got > 0
    requires var from := s.conns[Source(s.pcs[c], dir)]; done + got <= |from.input| - from.taken
    ensures var at := Holding(s, c, dir, done, got);
            Enabled(at, Put(c, dir, put)) && Apply(at, Put(c, dir, put)) == Copied(s, c, dir, done + got, done + put, put < got)
  {
    var from, to := s.conns[Source(s.pcs[c], dir)], s.conns[Target(s.pcs[c], dir)];
    Joined(to.fwd, from.input, from.taken, done, got, put);
    Joined(to.out, from.input, from.taken, done, got, put);
    var end := Apply(Holding(s, c, dir, done, got), Put(c, dir, put));
    assert end.pcs == Copied(s, c, dir, done + got, done + put, put < got).pcs;
    assert end.conns == Copied(s, c, dir, done + got, done + put, put < got).conns;
  }

  lemma Joined(out: seq<byte>, input: seq<byte>, at: nat, done: nat, got: nat, put: nat)
    requires at + done + got <= |input| && put <= got
    ensures out + input[at..at + done] + input[at + done..at + done + got][..put] == out + input[at..at + done + put]
  {
    var a, b := input[at..at + done], input[at + done..at + done + got][..put];
    assert a + b == input[at..at + done + put];
    assert out + a + b == out + (a + b);
  }

  /** Whole turns, one after another. */
  lemma {:induction false} WholeTurns(s0: State, before: seq<Step>, s: State, c: ConnId, dir: Direction, cuts: seq<nat>)
    returns (steps: seq<Step>)
    requires Ready(s, c, dir) && Run(s0, before) == Some(s)
    requires forall i :: 0 <= i < |cuts| ==> cuts[i] > 0
    requires var from := s.conns[Source(s.pcs[c], dir)]; Sum(cuts) <= |from.input| - from.taken
    ensures Run(s0, steps) == Some(Copied(s, c, dir, Sum(cuts), Sum(cuts), false))
    decreases |cuts|
  {
    hide Run, Ready, Copied;
    if cuts == [] {
      steps := before;
      NothingCopied(s, c, dir);
    } else {
      var front, last := cuts[..|cuts| - 1], cuts[|cuts| - 1];
      steps := WholeTurns(s0, before, s, c, dir, front);
      steps := TurnIsTwoSteps(s0, steps, s, c, dir, Sum(front), last, last);
    }
  }

  lemma NothingCopied(s: State, c: ConnId, dir: Direction)
    requires Ready(s, c, dir)
    ensures Copied(s, c, dir, 0, 0, false) == s
  {
    var from, to := s.conns[Source(s.pcs[c], dir)], s.conns[Target(s.pcs[c], dir)];
    assert from.input[from.taken..from.taken] == [] && to.fwd + [] == to.fwd && to.out + [] == to.out;
    assert Copied(s, c, dir, 0, 0, false).pcs == s.pcs;
    assert Copied(s, c, dir, 0, 0, false).conns == s.conns;
  }

  lemma AllTurns(s0: State, before: seq<Step>, s: State, c: ConnId, dir: Direction, len: nat,
                 cuts: seq<nat>, room: nat, failed: bool) returns (steps: seq<Step>)
    requires Ready(s, c, dir) && Run(s0, before) == Some(s)
    requires var from := s.conns[Source(s.pcs[c], dir)]; len == |from.input| - from.taken
    requires Reads(cuts, len, room, failed)
    ensures Min(len, room) <= Sum(cuts) <= len
    ensures Run(s0, steps) == Some(Copied(s, c, dir, Sum(cuts), Min(len, room), failed))
  {
    hide Run, Ready, Copied;
    if failed {
      var front, last := cuts[..|cuts| - 1], cuts[|cuts| - 1];
      steps := WholeTurns(s0, before, s, c, dir, front);
      steps := TurnIsTwoSteps(s0, steps, s, c, dir, Sum(front), last, room - Sum(front));
    } else {
      steps := WholeTurns(s0, before, s, c, dir, cuts);
    }
  }

  /** `t` is the state after a copy has sent `n` more bytes, been counted, and closed its
      target. */
  predicate CopyEnded(s: State, c: ConnId, dir: Direction, n: nat, t: State)
    requires Ready(s, c, dir)
    requires var from := s.conns[Source(s.pcs[c], dir)]; n <= |from.input| - from.taken
  {
    var from, dst := s.conns[Source(s.pcs[c], dir)], Target(s.pcs[c], dir);
    && |t.conns| == |s.conns| && |t.pcs| == |s.pcs|
    && t.conns[dst].fwd == s.conns[dst].fwd + from.input[from.taken..from.taken + n] && !t.conns[dst].open
    && t.table == AddBytes(s.table, s.pcs[c].s, CopyOf(s.pcs[c], dir).n + n)
    && t.pcs[c] == WithCopy(s.pcs[c], dir, Counted)
  }

  /** A copy that is not interrupted is a run of reads, writes and a finish, whichever
      reads it makes: the target gets what `Copy` writes, the session counts it with what
      the copy had before, and the target is closed. */
  lemma CopyIsRun(s0: State, before: seq<Step>, s: State, c: ConnId, dir: Direction, len: nat,
                  cuts: seq<nat>, room: nat, failed: bool) returns (steps: seq<Step>)
    requires Ready(s, c, dir) && Run(s0, before) == Some(s)
    requires var from := s.conns[Source(s.pcs[c], dir)]; len == |from.input| - from.taken
    requires Reads(cuts, len, room, failed)
    ensures Run(s0, steps).Some? && CopyEnded(s, c, dir, Min(len, room), Run(s0, steps).value)
  {
    hide *;
    var turns := AllTurns(s0, before, s, c, dir, len, cuts, room, failed);
    var at := Copied(s, c, dir, Sum(cuts), Min(len, room), failed);
    CopiedIsWritten(s, c, dir, Sum(cuts), Min(len, room), failed);
    FinishEnds(s, c, dir, Min(len, room), at);
    steps := Extend(s0, turns, at, Finish(c, dir), Apply(at, Finish(c, dir)));
  }

  /** `at` is a state in which a copy has sent `n` more bytes and may end. */
  predicate Written(s: State, c: ConnId, dir: Direction, n: nat, at: State)
    requires Ready(s, c, dir)
    requires var from := s.conns[Source(s.pcs[c], dir)]; n <= |from.input| - from.taken
  {
    var from, dst := s.conns[Source(s.pcs[c], dir)], Target(s.pcs[c], dir);
    && at.table == s.table && At(at, c) && |at.pcs| == |s.pcs|
    && at.pcs[c].Relaying? && at.pcs[c].s == s.pcs[c].s && Target(at.pcs[c], dir) == dst
    && at.conns[dst].fwd == s.conns[dst].fwd + from.input[from.taken..from.taken + n]
    && Enabled(at, Finish(c, dir)) && CopyOf(at.pcs[c], dir).n == CopyOf(s.pcs[c], dir).n + n
    && WithCopy(at.pcs[c], dir, Counted) == WithCopy(s.pcs[c], dir, Counted)
  }

  lemma CopiedIsWritten(s: State, c: ConnId, dir: Direction, total: nat, put: nat, failed: bool)
    requires Ready(s, c, dir)
    requires var from := s.conns[Source(s.pcs[c], dir)]; put <= total <= |from.input| - from.taken
    ensures Written(s, c, dir, put, Copied(s, c, dir, total, put, failed))
  {
  }

  lemma FinishState(s: State, c: ConnId, dir: Direction)
    requires Enabled(s, Finish(c, dir))
    ensures var t, dst := Apply(s, Finish(c, dir)), Target(s.pcs[c], dir);
            && |t.conns| == |s.conns| && |t.pcs| == |s.pcs|
            && t.conns[dst] == s.conns[dst].(open := false)
            && t.table == AddBytes(s.table, s.pcs[c].s, CopyOf(s.pcs[c], dir).n)
            && t.pcs[c] == WithCopy(s.pcs[c], dir, Counted)
  {
  }

  lemma FinishEnds(s: State, c: ConnId, dir: Direction, n: nat, at: State)
    requires Ready(s, c, dir)
    requires var from := s.conns[Source(s.pcs[c], dir)]; n <= |from.input| - from.taken
    requires Written(s, c, dir, n, at)
    ensures Enabled(at, Finish(c, dir)) && CopyEnded(s, c, dir, n, Apply(at, Finish(c, dir)))
  {
    FinishState(at, c, dir);
    SameEnd(s, c, dir, n, at, Apply(at, Finish(c, dir)));
  }

  lemma SameEnd(s: State, c: ConnId, dir: Direction, n: nat, at: State, t: State)
    requires Ready(s, c, dir)
    requires var from := s.conns[Source(s.pcs[c], dir)]; n <= |from.input| - from.taken
    requires Written(s, c, dir, n, at)
    requires var dst := Target(s.pcs[c], dir);
             && |t.conns| == |at.conns| && |t.pcs| == |at.pcs| && t.conns[dst] == at.conns[dst].(open := false)
             && t.table == AddBytes(at.table, at.pcs[c].s, CopyOf(at.pcs[c], dir).n)
             && t.pcs[c] == WithCopy(at.pcs[c], dir, Counted)
    ensures CopyEnded(s, c, dir, n, t)
  {
    hide Apply, Enabled, WithCopy, CopyOf, AddBytes;
  }
}
