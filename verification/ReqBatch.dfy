/** A batch of requests that is taken apart from the front. */
module RequestBatches {
  import opened Types

  class ReqBatch {
    var m_reqs: seq<GFQRecord>

    constructor (reqs: seq<GFQRecord> := [])
      ensures m_reqs == reqs
    {
      m_reqs := reqs;
    }

    method Acc(req: GFQRecord)
      modifies this
      ensures m_reqs == old(m_reqs) + [req]
    {
      m_reqs := m_reqs + [req];
    }

    method Merge(a: ReqBatch)
      modifies this
      ensures m_reqs == old(m_reqs) + old(a.m_reqs)
    {
      m_reqs := m_reqs + a.m_reqs;
    }

    /** The first `max` requests, or all if there are fewer, and how many that is. */
    method GetReqs(max: nat) returns (count: nat, reqs: seq<GFQRecord>)
      ensures count <= max && count <= |m_reqs|
      ensures reqs == m_reqs[..count]
      ensures count < max ==> count == |m_reqs|
    {
      reqs := [];
      count := 0;
      var n := if max < |m_reqs| then max else |m_reqs|;
      for i := 0 to n
        invariant count == i && reqs == m_reqs[..i]
      {
        reqs := reqs + [m_reqs[i]];
        count := count + 1;
      }
    }

    /** What is left after `count` requests; asking for more than there are is an error. */
    method Slice(count: nat) returns (ok: bool, rest: seq<GFQRecord>)
      ensures ok <==> count <= |m_reqs|
      ensures ok ==> rest == m_reqs[count..]
    {
      if count == |m_reqs| {
        return true, [];
      }
      if count > |m_reqs| {
        return false, [];
      }
      rest := [];
      for i := count to |m_reqs|
        invariant rest == m_reqs[count..i]
      {
        rest := rest + [m_reqs[i]];
      }
      ok := true;
    }
  }
}
