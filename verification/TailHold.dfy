/** The last bytes of a stream, held back since they may be a signature trailer. */
module TailHold {
  import opened Bytes
  import opened OtaTrailer

  class Hold {
    const buf: array<byte>
    var n: nat

    ghost predicate Valid()
      reads this
    {
      buf.Length == TRAILER && n <= TRAILER
    }

    function Held(): (h: seq<byte>)
      requires Valid()
      reads this, buf
      ensures |h| == n
    {
      buf[..n]
    }

    constructor ()
      ensures Valid() && n == 0 && fresh(buf)
    {
      buf := new byte[TRAILER];
      n := 0;
    }

    method Append(p: seq<byte>)
      requires Valid() && n + |p| <= TRAILER
      modifies this, buf
      ensures Valid() && Held() == old(Held()) + p
    {
      forall i | 0 <= i < |p| { buf[n + i] := p[i]; }
      n := n + |p|;
    }

    /** Drops the first `fromHeld` held bytes and takes what p has past its first `fromIn`. */
    method Shift(p: seq<byte>, fromHeld: nat, fromIn: nat)
      requires Valid() && fromHeld <= n && fromIn <= |p| && n - fromHeld + |p| - fromIn == TRAILER
      modifies this, buf
      ensures Valid() && Held() == old(Held())[fromHeld..] + p[fromIn..]
    {
      ghost var was := Held();
      var kept := n - fromHeld;
      forall i | 0 <= i < kept { buf[i] := buf[fromHeld + i]; }
      forall i | 0 <= i < |p| - fromIn { buf[kept + i] := p[fromIn + i]; }
      n := TRAILER;
      assert Held() == was[fromHeld..] + p[fromIn..];
    }

    method Reset()
      requires Valid()
      modifies this
      ensures Valid() && Held() == []
    {
      n := 0;
    }
  }
}
