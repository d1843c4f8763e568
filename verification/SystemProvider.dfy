/** Authentication: the constant-time token comparison and the verdict of `system.hello`. */
module SystemProvider {

  /** Tokens as raw octets, lengths as 64-bit machine words. */
  type Token = seq<bv8>
  type usize = bv64

  const PROTOCOL_VERSION: nat := 1

  function ByteAt(s: Token, i: nat): bv8 {
    if i < |s| then s[i] else 0
  }

  lemma OrIsZero(a: bv64, b: bv8)
    ensures (a | (b as bv64)) == 0 <==> a == 0 && b == 0
  {
  }

  lemma XorIsZero(a: bv8, b: bv8)
    ensures (a ^ b) == 0 <==> a == b
  {
  }

  lemma XorIsZero64(a: bv64, b: bv64)
    ensures (a ^ b) == 0 <==> a == b
  {
  }

  lemma SameLength(a: usize, b: usize)
    ensures a == b <==> a as nat == b as nat
  {
    if a as nat == b as nat {
      assert (a as nat) as usize == a;
      assert (b as nat) as usize == b;
    }
  }

  predicate SameBytes(left: Token, right: Token, n: nat) {
    forall i | 0 <= i < n :: ByteAt(left, i) == ByteAt(right, i)
  }

  /** The loop: every position of the longer token is looked at, whatever has been found so far. */
  method Accumulate(left: Token, right: Token, start: usize) returns (difference: usize)
    ensures difference == 0 <==> start == 0 && SameBytes(left, right, |left|) && SameBytes(left, right, |right|)
  {
    difference := start;
    var length := if |left| >= |right| then |left| else |right|;
    for index := 0 to length
      invariant difference == 0 <==> start == 0 && SameBytes(left, right, index)
    {
      var leftByte := ByteAt(left, index);
      var rightByte := ByteAt(right, index);
      XorIsZero(leftByte, rightByte);
      OrIsZero(difference, leftByte ^ rightByte);
      difference := difference | ((leftByte ^ rightByte) as usize);
    }
  }

  /** The comparison decides equality exactly.  The lengths come in as machine words. */
  method ConstantTimeEq(left: Token, right: Token, leftLen: usize, rightLen: usize) returns (equal: bool)
    requires leftLen as nat == |left| && rightLen as nat == |right|
    ensures equal <==> left == right
  {
    XorIsZero64(leftLen, rightLen);
    SameLength(leftLen, rightLen);
    var difference := Accumulate(left, right, leftLen ^ rightLen);
    if difference == 0 {
      forall i | 0 <= i < |left|
        ensures left[i] == right[i]
      {
        assert ByteAt(left, i) == ByteAt(right, i);
      }
    }
    return difference == 0;
  }

  // ---- the verdict of hello ----

  datatype HelloParams = HelloParams(token: Token, versions: seq<nat>)

  datatype HelloVerdict = Accepted | WrongToken | IncompatibleVersion

  /** A hello is accepted exactly on the configured token and an offer of this protocol version. */
  method Hello(params: HelloParams, token: Token, paramLen: usize, tokenLen: usize) returns (verdict: HelloVerdict)
    requires paramLen as nat == |params.token| && tokenLen as nat == |token|
    ensures verdict.Accepted? <==> Credentials(params, token)
    ensures verdict.WrongToken? <==> params.token != token
  {
    var same := ConstantTimeEq(params.token, token, paramLen, tokenLen);
    if !same {
      return WrongToken;
    }
    if PROTOCOL_VERSION !in params.versions {
      return IncompatibleVersion;
    }
    return Accepted;
  }

  predicate Credentials(params: HelloParams, token: Token) {
    params.token == token && PROTOCOL_VERSION in params.versions
  }
}
