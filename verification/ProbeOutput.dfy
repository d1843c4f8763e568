/** What a probe keeps of an output stream: the beginning, up to a cap, and the full count. */
module ProbeOutput {
  import opened Bytes

  const MAX_OUTPUT_BYTES: nat := 64 * 1024
  const CHUNK: nat := 8 * 1024

  function Capped(s: Bytes): Bytes {
    if |s| > MAX_OUTPUT_BYTES then s[..MAX_OUTPUT_BYTES] else s
  }

  /** A pipe: `unread` is what will still come out of it before it closes. */
  class Pipe {
    var unread: Bytes

    constructor (unread: Bytes)
      ensures this.unread == unread
    {
      this.unread := unread;
    }

    method Read(max: nat) returns (c: Bytes)
      requires max > 0
      modifies this
      ensures |c| <= max && c + unread == old(unread) && (c == [] <==> old(unread) == [])
    {
      ghost var least: nat := if unread == [] then 0 else 1;
      assert least <= max && least <= |unread| && (least == 0 <==> unread == []);
      var n: nat :| n <= max && n <= |unread| && (n == 0 <==> unread == []);
      c := unread[..n];
      unread := unread[n..];
    }
  }

  class Sink {
    var kept: Bytes
    var total: nat
    /** Everything that was read. */
    ghost var seen: Bytes

    ghost predicate Valid()
      reads this
    {
      kept == Capped(seen) && total == |seen|
    }

    constructor ()
      ensures Valid() && seen == []
    {
      kept, total, seen := [], 0, [];
    }

    method Accept(chunk: Bytes)
      requires Valid()
      modifies this
      ensures Valid() && seen == old(seen) + chunk
    {
      total := total + |chunk|;
      var room := if |kept| > MAX_OUTPUT_BYTES then 0 else MAX_OUTPUT_BYTES - |kept|;
      var take := if room < |chunk| then room else |chunk|;
      kept := kept + chunk[..take];
      seen := seen + chunk;
    }

    /** Reads on past the cap, until the pipe closes, or for as many reads as it is left to run. */
    method PumpRead(pipe: Pipe, budget: nat) returns (closed: bool)
      requires Valid() && seen == []
      modifies this, pipe
      ensures Valid() && seen + pipe.unread == old(pipe.unread)
      ensures closed ==> seen == old(pipe.unread)
      ensures !closed ==> |seen| >= budget
    {
      var turns := 0;
      while turns < budget
        invariant Valid() && seen + pipe.unread == old(pipe.unread)
        invariant |seen| >= turns && turns <= budget
        decreases budget - turns
      {
        var chunk := pipe.Read(CHUNK);
        if chunk == [] {
          return true;
        }
        ghost var before := seen;
        Accept(chunk);
        assert before + chunk + pipe.unread == before + (chunk + pipe.unread);
        turns := turns + 1;
      }
      return false;
    }
  }

  /** The flag of the result: something was dropped from one of the streams exactly when it passed the cap. */
  method Truncated(out: Sink, err: Sink) returns (truncated: bool)
    requires out.Valid() && err.Valid()
    ensures truncated <==> |out.seen| > MAX_OUTPUT_BYTES || |err.seen| > MAX_OUTPUT_BYTES
    ensures !truncated <==> out.kept == out.seen && err.kept == err.seen
  {
    truncated := |out.kept| < out.total || |err.kept| < err.total;
  }
}
