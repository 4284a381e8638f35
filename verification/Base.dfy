/** Datatypes and string tests shared by the other modules. */
module Base {

  datatype Option<+T> = None | Some(value: T)

  datatype Result<+T, +E> = Ok(value: T) | Err(error: E)

  function Min(a: int, b: int): int {
    if a <= b then a else b
  }

  function Max(a: int, b: int): int {
    if a >= b then a else b
  }

  const UINT32_MAX := 0xFFFF_FFFF
  const INT32_MAX := 0x7FFF_FFFF

  predicate IsUint32(n: int) {
    0 <= n <= UINT32_MAX
  }

  predicate IsLowerHexChar(c: char) {
    '0' <= c <= '9' || 'a' <= c <= 'f'
  }

  predicate IsHexChar(c: char) {
    IsLowerHexChar(c) || 'A' <= c <= 'F'
  }

  /** A 32-byte hash in lowercase hexadecimal, as stored and as shown. */
  predicate IsHash(s: string) {
    |s| == 64 && forall i :: 0 <= i < |s| ==> IsLowerHexChar(s[i])
  }

  /** A 32-byte value in hexadecimal of either case, as the ledger reports it. */
  predicate IsAnyCaseHash(s: string) {
    |s| == 64 && forall i :: 0 <= i < |s| ==> IsHexChar(s[i])
  }

  function LowerChar(c: char): char {
    if 'A' <= c <= 'Z' then (c as int + 32) as char else c
  }

  function Lower(s: string): (r: string)
    ensures |r| == |s|
    ensures forall i :: 0 <= i < |s| ==> r[i] == LowerChar(s[i])
  {
    seq(|s|, i requires 0 <= i < |s| => LowerChar(s[i]))
  }

  lemma LowerOfHash(s: string)
    requires IsAnyCaseHash(s)
    ensures IsHash(Lower(s))
  {
    forall i | 0 <= i < |s| ensures IsLowerHexChar(Lower(s)[i]) {
      assert IsHexChar(s[i]);
    }
  }

  lemma LowerOfLower(s: string)
    ensures Lower(Lower(s)) == Lower(s)
  {
  }

  lemma LowerKeepsHash(s: string)
    requires IsHash(s)
    ensures Lower(s) == s && IsAnyCaseHash(s)
  {
    forall i | 0 <= i < |s| ensures LowerChar(s[i]) == s[i] && IsHexChar(s[i]) {
      assert IsLowerHexChar(s[i]);
    }
  }

  // ---- The same tests by the digits themselves --------------------------------------------------------

  predicate IsHexOf64(s: string) {
    |s| == 64 && forall i :: 0 <= i < |s| ==> s[i] in "0123456789abcdefABCDEF"
  }

  lemma HexIsLiteral()
    ensures forall c :: IsHexChar(c) <==> c in "0123456789abcdefABCDEF"
    ensures forall c :: IsLowerHexChar(c) <==> c in "0123456789abcdef"
  {
    forall c
      ensures IsHexChar(c) <==> c in "0123456789abcdefABCDEF"
      ensures IsLowerHexChar(c) <==> c in "0123456789abcdef"
    {
      var digits, lower := "0123456789abcdefABCDEF", "0123456789abcdef";
      if IsHexChar(c) {
        var k := if c <= '9' then c as int - '0' as int
                 else if c <= 'F' then c as int - 'A' as int + 16
                 else c as int - 'a' as int + 10;
        assert digits[k] == c;
        if k < 16 { assert lower[k] == c; }
      }
    }
  }

  /** A value is a hash in either case exactly when its lowercase form is one. */
  lemma HashesAreHex(s: string)
    ensures IsHexOf64(s) <==> IsAnyCaseHash(s)
    ensures IsHexOf64(s) <==> IsHash(Lower(s))
    ensures IsHash(s) <==> |s| == 64 && forall i :: 0 <= i < |s| ==> s[i] in "0123456789abcdef"
  {
    HexIsLiteral();
    forall i | 0 <= i < |s| ensures IsHexChar(s[i]) <==> IsLowerHexChar(Lower(s)[i]) {
    }
    if IsHash(Lower(s)) {
      forall i | 0 <= i < |s| ensures IsHexChar(s[i]) { assert IsLowerHexChar(Lower(s)[i]); }
    }
  }
}
