/** The output buffer of internal/executor/local.go, lines 234 to 267. */
module BoundedBuffer {

  function Take<T>(s: seq<T>, n: int): seq<T> {
    if n <= 0 then [] else if n >= |s| then s else s[..n]
  }

  class Buffer<T> {
    const limit: int
    var contents: seq<T>
    var truncated: bool
    ghost var written: seq<T> // everything ever written

    /** However the output was cut into writes, the buffer holds its first "limit" bytes and knows whether
        there were more. */
    ghost predicate Valid()
      reads this
    {
      contents == Take(written, limit) && (truncated <==> contents != written)
    }

    constructor (limit: int)
      ensures Valid() && written == [] && this.limit == limit
    {
      this.limit := limit;
      contents, truncated, written := [], false, [];
    }

    /** It claims to have accepted everything. */
    method Write(p: seq<T>) returns (accepted: nat)
      requires Valid()
      modifies this
      ensures Valid() && written == old(written) + p && accepted == |p|
    {
      accepted := |p|;
      var remaining := limit - |contents|;
      written := written + p;
      if remaining <= 0 {
        truncated := truncated || |p| > 0;
        return;
      }
      if remaining > |p| { remaining := |p|; }
      contents := contents + p[..remaining];
      if remaining < |p| { truncated := true; }
    }
  }
}
