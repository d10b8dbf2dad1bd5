/** Token identifiers (`TokenID`): a 32-byte array and a validity flag.
    Coin selection filters on `Equals`, so what matters is which identifiers
    fall into one class. */
module Tokens {

  type Byte = x: int | 0 <= x < 256

  const WIDTH: nat := 32

  /** A default-constructed identifier has all-zero data and is not valid;
      only `FromBytes` sets the flag. */
  datatype RawToken = Token(data: seq<Byte>, valid: bool)

  type TokenId = t: RawToken | |t.data| == WIDTH && (!t.valid ==> t.data == Zeros(WIDTH))
    witness Token(seq(WIDTH, i => 0), false)

  function Zeros(n: nat): (z: seq<Byte>)
    ensures |z| == n
    ensures forall i :: 0 <= i < n ==> z[i] == 0
  {
    seq(n, i => 0)
  }

  /** `FromBytes`: nothing or more than 32 bytes gives the invalid identifier;
      1 to 32 bytes are copied to the right end of the array. */
  function FromBytes(bytes: seq<Byte>): TokenId {
    if bytes == [] || |bytes| > WIDTH then Token(Zeros(WIDTH), false)
    else Token(Zeros(WIDTH - |bytes|) + bytes, true)
  }

  predicate IsGnus(t: TokenId) {
    !t.valid || forall i :: 0 <= i < WIDTH ==> t.data[i] == 0
  }

  predicate Equals(a: TokenId, b: TokenId) {
    a == b || (IsGnus(a) && IsGnus(b))
  }

  /** `operator<`: lexicographic on the data, the flag is not looked at. */
  predicate Less(a: seq<Byte>, b: seq<Byte>)
    requires |a| == |b|
  {
    a != [] && (a[0] < b[0] || (a[0] == b[0] && Less(a[1..], b[1..])))
  }

  /** The number an identifier spells in big-endian order; it names the class. */
  function Number(bytes: seq<Byte>): nat {
    if bytes == [] then 0
    else 256 * Number(bytes[..|bytes| - 1]) + bytes[|bytes| - 1]
  }

  function Class(t: TokenId): nat { Number(t.data) }

  // ---------------------------------------------------------------- proofs

  lemma {:induction false} NumberOfZeros(n: nat)
    ensures Number(Zeros(n)) == 0
  {
    if n > 0 {
      assert Zeros(n)[..n - 1] == Zeros(n - 1);
      NumberOfZeros(n - 1);
    }
  }

  lemma {:induction false} PaddingKeepsNumber(n: nat, bytes: seq<Byte>)
    ensures Number(Zeros(n) + bytes) == Number(bytes)
  {
    if bytes == [] {
      NumberOfZeros(n);
      assert Zeros(n) + bytes == Zeros(n);
    } else {
      var k := |bytes| - 1;
      assert (Zeros(n) + bytes)[..n + k] == Zeros(n) + bytes[..k];
      PaddingKeepsNumber(n, bytes[..k]);
    }
  }

  lemma {:induction false} NumberInjective(a: seq<Byte>, b: seq<Byte>)
    requires |a| == |b| && Number(a) == Number(b)
    ensures a == b
  {
    if a != [] {
      var k := |a| - 1;
      assert a[k] == Number(a) % 256 == b[k];
      NumberInjective(a[..k], b[..k]);
      assert a == a[..k] + [a[k]] && b == b[..k] + [b[k]];
    }
  }

  /** `Equals` holds exactly when both identifiers spell the same number, so it
      is an equivalence relation and the invalid identifier is the GNUS class. */
  lemma EqualsIsSameClass(a: TokenId, b: TokenId)
    ensures Equals(a, b) <==> Class(a) == Class(b)
    ensures IsGnus(a) <==> Class(a) == 0
  {
    NumberOfZeros(WIDTH);
    if Class(a) == Class(b) {
      NumberInjective(a.data, b.data);
    }
    if IsGnus(a) {
      assert a.data == Zeros(WIDTH);
    }
    if IsGnus(b) {
      assert b.data == Zeros(WIDTH);
    }
    if Class(a) == 0 {
      NumberInjective(a.data, Zeros(WIDTH));
    }
  }

  /** The class of a parsed identifier is the number its bytes spell, whatever
      their count; more than 32 bytes silently give the GNUS class. */
  lemma ParsedClass(bytes: seq<Byte>)
    ensures Class(FromBytes(bytes)) == if |bytes| > WIDTH then 0 else Number(bytes)
  {
    if bytes != [] && |bytes| <= WIDTH {
      PaddingKeepsNumber(WIDTH - |bytes|, bytes);
    } else {
      NumberOfZeros(WIDTH);
    }
  }

  lemma {:induction false} LessIsTotal(a: seq<Byte>, b: seq<Byte>)
    requires |a| == |b|
    ensures Less(a, b) || Less(b, a) || a == b
    ensures !(Less(a, b) && Less(b, a)) && !Less(a, a)
  {
    if a != [] {
      LessIsTotal(a[1..], b[1..]);
      LessIsTotal(a[1..], a[1..]);
      assert a == [a[0]] + a[1..] && b == [b[0]] + b[1..];
    }
  }

  /** Ordered containers of identifiers merge exactly the `Equals` classes:
      two identifiers are unordered by `operator<` if and only if they are equal
      in the sense of `Equals`, although `operator==` tells some of them apart. */
  lemma OrderMatchesEquals(a: TokenId, b: TokenId)
    ensures (!Less(a.data, b.data) && !Less(b.data, a.data)) <==> Equals(a, b)
  {
    LessIsTotal(a.data, b.data);
    EqualsIsSameClass(a, b);
    if a.data != b.data && Class(a) == Class(b) {
      NumberInjective(a.data, b.data);
    }
  }
}
