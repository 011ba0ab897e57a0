/** One goroutine writing to, or disconnecting, a client whose context others use at the same time. What the
    others may do meanwhile is what WriteLock proves of every interleaving: while this goroutine holds the
    lock, nobody else touches the lock or the wire. */
module StratumContext {
  import opened Bytes
  import opened WriteLock

  class Context {
    var writeLock: int
    var disconnecting: bool
    /** What the socket has taken so far. */
    var wire: seq<byte>
    /** Whether this goroutine holds the lock. */
    var mine: bool
    /** What this goroutine did: socket writes, disconnects asked for by failed writes, closes and events. */
    var calls: nat
    var asked: nat
    var closes: nat
    var queued: nat

    ghost predicate Valid()
      reads this
    {
      (writeLock == 0 || writeLock == 1) && (mine ==> writeLock == 1)
    }

    constructor ()
      ensures Valid() && !mine && !disconnecting && wire == [] && calls == asked == closes == queued == 0
    {
      writeLock, disconnecting, wire, mine := 0, false, [], false;
      calls, asked, closes, queued := 0, 0, 0, 0;
    }

    /** Any number of steps of other goroutines. */
    method OthersRun()
      requires Valid()
      modifies `writeLock, `wire, `disconnecting
      ensures Valid() && old(wire) <= wire && (old(disconnecting) ==> disconnecting)
      ensures mine ==> writeLock == old(writeLock) && wire == old(wire)
    {
      var busy: bool := *;
      var left: bool := *;
      var more: seq<byte> := *;
      if !mine {
        writeLock := if busy then 1 else 0;
        wire := wire + more;
      }
      disconnecting := disconnecting || left;
    }

    /** The atomic compare-and-swap on the lock. */
    method TryLock() returns (won: bool)
      requires Valid() && !mine
      modifies `writeLock, `mine
      ensures Valid() && won == mine == (old(writeLock) == 0)
    {
      won := writeLock == 0;
      if won {
        writeLock, mine := 1, true;
      }
    }

    /** The socket takes some of the bytes, all of them when it reports no error. */
    method SocketWrite(data: seq<byte>) returns (taken: nat, ok: bool)
      requires Valid() && mine
      modifies `wire, `calls
      ensures Valid() && calls == old(calls) + 1
      ensures taken <= |data| && wire == old(wire) + data[..taken] && (ok ==> taken == |data|)
    {
      taken :| taken <= |data|;
      var failed: bool := *;
      ok := taken == |data| && !failed;
      wire, calls := wire + data[..taken], calls + 1;
    }

    /** One attempt. Where it reached the socket, what was taken of the data stands on the wire in one piece. */
    method Write(data: seq<byte>) returns (r: Result, ghost start: seq<byte>, ghost taken: nat)
      requires Valid() && !mine
      modifies this
      ensures Valid() && !mine && old(wire) <= wire && (old(disconnecting) ==> disconnecting)
      ensures closes == old(closes) && queued == old(queued)
      ensures r != Gone && calls == old(calls) + (if r == Sent || r == Failed then 1 else 0)
      ensures asked == old(asked) + (if r == Failed then 1 else 0)
      ensures r == Sent || r == Failed ==>
        taken <= |data| && old(wire) <= start && start + data[..taken] <= wire && (r == Sent ==> taken == |data|)
    {
      start, taken := [], 0;
      OthersRun();
      var won := TryLock();
      if !won {
        return Blocked, start, taken;
      }
      OthersRun();
      var deadline: bool := *;
      if deadline {
        start := wire;
        var n, ok := SocketWrite(data);
        taken := n;
        OthersRun();
        r := if ok then Sent else Failed;
        asked := asked + if ok then 0 else 1;
      } else {
        r := NoDeadline;
      }
      writeLock, mine := 0, false;
    }

    /** Up to three attempts, going on only while the lock is taken: at most one socket write is issued, and
        exactly when it succeeds the call returns nil and the whole message stands on the wire in one piece. */
    method WriteWithBackoff(data: seq<byte>)
      returns (r: Result, ghost attempts: nat, ghost start: seq<byte>, ghost taken: nat)
      requires Valid() && !mine
      modifies this
      ensures Valid() && !mine && old(wire) <= wire && (old(disconnecting) ==> disconnecting)
      ensures closes == old(closes) && queued == old(queued)
      ensures r != Gone && 1 <= attempts <= ATTEMPTS && (r == Blocked ==> attempts == ATTEMPTS)
      ensures calls == old(calls) + (if r == Sent || r == Failed then 1 else 0)
      ensures asked == old(asked) + (if r == Failed then 1 else 0)
      ensures r == Sent || r == Failed ==>
        taken <= |data| && old(wire) <= start && start + data[..taken] <= wire && (r == Sent ==> taken == |data|)
    {
      for i := 0 to ATTEMPTS
        invariant Valid() && !mine && old(wire) <= wire && (old(disconnecting) ==> disconnecting)
        invariant closes == old(closes) && queued == old(queued) && calls == old(calls) && asked == old(asked)
      {
        attempts := i + 1;
        r, start, taken := Write(data);
        if r != Blocked {
          return;
        }
        OthersRun();
      }
      return Blocked, ATTEMPTS, [], 0;
    }

    /** Nothing is written once the client is known to be disconnecting. */
    method WriteRaw(data: seq<byte>) returns (r: Result, ghost start: seq<byte>, ghost taken: nat)
      requires Valid() && !mine
      modifies this
      ensures Valid() && !mine && old(wire) <= wire
      ensures closes == old(closes) && queued == old(queued)
      ensures old(disconnecting) ==> r == Gone
      ensures calls == old(calls) + (if r == Sent || r == Failed then 1 else 0)
      ensures r == Sent || r == Failed ==>
        taken <= |data| && old(wire) <= start && start + data[..taken] <= wire && (r == Sent ==> taken == |data|)
    {
      OthersRun();
      if disconnecting {
        return Gone, [], 0;
      }
      ghost var attempts;
      r, attempts, start, taken := WriteWithBackoff(data);
    }

    /** Only the call that wins the compare-and-swap closes the connection and queues an event, when there
        is room for one; a call that comes after a disconnect does nothing. */
    method Disconnect() returns (first: bool)
      requires Valid()
      modifies `writeLock, `wire, `disconnecting, `closes, `queued
      ensures Valid() && disconnecting && (first ==> !old(disconnecting))
      ensures closes == old(closes) + (if first then 1 else 0)
      ensures old(queued) <= queued <= old(queued) + (if first then 1 else 0)
    {
      OthersRun();
      if disconnecting {
        return false;
      }
      disconnecting := true;
      OthersRun();
      closes := closes + 1;
      OthersRun();
      var room: bool := *;
      queued := queued + if room then 1 else 0;
      return true;
    }
  }
}
