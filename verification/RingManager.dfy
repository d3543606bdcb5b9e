/**
 * The methods of TPVersionManager that finish without waiting, on the fields the source
 * declares.  Each is tied to the step, or to the lock section, of the protocol model.
 */
module RingManager {
  import opened VersionManager

  const RING_BUF_SIZE: nat := 1024 * 1024

  class TPVersionManager {
    var threadNum: nat
    var writeTs: nat
    var readTs: nat
    var pendingReqs: int
    var pendingUpdateReqs: int
    const buf: array<bool>

    ghost predicate Valid()
      reads this
    {
      buf.Length == RING_BUF_SIZE
    }

    /** The manager as the protocol sees it, next to the sessions' program counters. */
    ghost function Shared(pcs: seq<Pc>): (s: State)
      reads this, buf
    {
      State(writeTs, readTs, pendingReqs, pendingUpdateReqs == 1, buf[..], pcs)
    }

    constructor ()
      ensures Valid() && fresh(buf) && buf.Length == 1024 * 1024
      ensures writeTs == 1 && readTs == 0 && pendingReqs == 0 && pendingUpdateReqs == 0
      ensures forall k | 0 <= k < buf.Length :: !buf[k]
    {
      buf := new bool[RING_BUF_SIZE](_ => false);
      threadNum, writeTs, readTs, pendingReqs, pendingUpdateReqs := 0, 1, 0, 0, 0;
    }

    /** On a fresh manager this starts the protocol's clock just past `ts`. */
    method InitTs(ts: nat, threads: nat)
      requires Valid()
      modifies this`writeTs, this`readTs, this`threadNum
      ensures writeTs == ts + 1 && readTs == ts && threadNum == threads
      ensures old(pendingReqs == 0 && pendingUpdateReqs == 0 && forall k | 0 <= k < buf.Length :: !buf[k]) ==>
              forall n: nat :: Init(Config(n, threads, RING_BUF_SIZE), Shared(seq(n, _ => Idle)))
    {
      writeTs := ts + 1;
      readTs := ts;
      threadNum := threads;
    }

    method Clear()
      requires Valid()
      modifies this`writeTs, this`readTs, this`pendingReqs, buf
      ensures writeTs == 1 && readTs == 0 && pendingReqs == 0
      ensures forall k | 0 <= k < buf.Length :: !buf[k]
    {
      writeTs := 1;
      readTs := 0;
      pendingReqs := 0;
      forall k | 0 <= k < buf.Length {
        buf[k] := false;
      }
    }

    method ReleaseReadTimestamp()
      modifies this`pendingReqs
      ensures pendingReqs == old(pendingReqs) - 1
    {
      pendingReqs := pendingReqs - 1;
    }

    /** The loop in the lock section swallows exactly the run of bits that `Advance` does. */
    method ReleaseInsertTimestamp(ts: nat)
      requires Valid()
      modifies this`readTs, this`pendingReqs, buf
      ensures (readTs, buf[..]) == ReleaseSection(RING_BUF_SIZE, old(readTs), old(buf[..]), ts)
      ensures pendingReqs == old(pendingReqs) - 1
    {
      if ts == readTs + 1 {
        var t := ts;
        ghost var was := buf[..];
        while buf[(t + 1) % buf.Length]
          invariant t >= ts && |was| == buf.Length
          invariant Advance(buf.Length, buf[..], t) == Advance(buf.Length, was, ts)
          modifies buf
          decreases multiset(buf[..])[true]
        {
          ghost var before := buf[..];
          var k := (t + 1) % buf.Length;
          buf[k] := false;
          assert buf[..] == before[k := false];
          t := t + 1;
        }
        readTs := t;
      } else {
        buf[ts % buf.Length] := true;
        assert buf[..] == old(buf[..])[ts % RING_BUF_SIZE := true];
      }
      pendingReqs := pendingReqs - 1;
    }

    method ReleaseUpdateTimestamp(ts: nat)
      requires Valid()
      modifies this`readTs, this`pendingReqs, this`pendingUpdateReqs, buf
      ensures (readTs, buf[..]) == UpdateSection(RING_BUF_SIZE, old(readTs), old(buf[..]), ts)
      ensures pendingReqs == old(pendingReqs) + threadNum && pendingUpdateReqs == 0
    {
      if ts == readTs + 1 {
        readTs := ts;
      } else {
        buf[ts % buf.Length] := true;
        assert buf[..] == old(buf[..])[ts % RING_BUF_SIZE := true];
      }
      pendingReqs := pendingReqs + threadNum;
      pendingUpdateReqs := 0;
    }

    method RevertUpdateTimestamp(ts: nat) returns (ok: bool)
      modifies this`writeTs, this`pendingReqs, this`pendingUpdateReqs
      ensures ok <==> old(writeTs) == ts + 1
      ensures ok ==> writeTs == ts && pendingReqs == old(pendingReqs) + threadNum && pendingUpdateReqs == 0
      ensures !ok ==> unchanged(this)
    {
      ok := writeTs == ts + 1;
      if ok {
        writeTs := ts;
        pendingReqs := pendingReqs + threadNum;
        pendingUpdateReqs := 0;
      }
    }
  }
}
