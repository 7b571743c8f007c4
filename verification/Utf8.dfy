/** UTF-8 well-formedness (section 4 of RFC 3629), character boundaries, and the
    boundary-respecting truncation that frame encoding applies to file names. */
module Utf8 {
  import opened Prelude

  /** A continuation byte, `10xxxxxx`. */
  predicate IsCont(b: Byte) {
    0x80 <= b < 0xC0
  }

  /** Length of the well-formed character at the front of `s`; 0 when there is none.
      The ranges are the rows of the UTF8-octets grammar. */
  function CharLen(s: seq<Byte>): (n: nat)
    ensures n <= 4 && n <= |s|
    ensures n > 0 ==> !IsCont(s[0]) && forall i :: 0 < i < n ==> IsCont(s[i])
  {
    if |s| >= 1 && s[0] < 0x80 then 1
    else if |s| >= 2 && 0xC2 <= s[0] <= 0xDF && IsCont(s[1]) then 2
    else if |s| >= 3 && 0xE0 <= s[0] <= 0xEF && IsCont(s[1]) && IsCont(s[2])
            && (s[0] == 0xE0 ==> s[1] >= 0xA0) && (s[0] == 0xED ==> s[1] < 0xA0) then 3
    else if |s| >= 4 && 0xF0 <= s[0] <= 0xF4 && IsCont(s[1]) && IsCont(s[2]) && IsCont(s[3])
            && (s[0] == 0xF0 ==> s[1] >= 0x90) && (s[0] == 0xF4 ==> s[1] < 0x90) then 4
    else 0
  }

  predicate Valid(s: seq<Byte>) {
    s == [] || (CharLen(s) > 0 && Valid(s[CharLen(s)..]))
  }

  /** A string value: bytes that are well-formed UTF-8. */
  type Str = s: seq<Byte> | Valid(s) witness []

  lemma {:induction false} AsciiIsValid(s: seq<Byte>)
    requires forall i :: 0 <= i < |s| ==> s[i] < 0x80
    ensures Valid(s)
  {
    if s != [] {
      AsciiIsValid(s[1..]);
    }
  }

  // ---- what the grammar means ---------------------------------------------------------------

  /** A Unicode scalar value: a code point other than a surrogate. */
  predicate IsScalar(c: int) {
    0 <= c < 0xD800 || 0xE000 <= c < 0x11_0000
  }

  /** The encoding of section 3 of RFC 3629: six bits of the value to a continuation byte. */
  function EncodeScalar(c: int): (r: seq<Byte>)
    requires IsScalar(c)
    ensures 1 <= |r| <= 4
  {
    if c < 0x80 then [c]
    else if c < 0x800 then [0xC0 + c / 0x40, 0x80 + c % 0x40]
    else if c < 0x1_0000 then [0xE0 + c / 0x1000, 0x80 + c / 0x40 % 0x40, 0x80 + c % 0x40]
    else [0xF0 + c / 0x4_0000, 0x80 + c / 0x1000 % 0x40, 0x80 + c / 0x40 % 0x40, 0x80 + c % 0x40]
  }

  /** Every scalar value's encoding is one character. */
  lemma ScalarIsChar(c: int, rest: seq<Byte>)
    requires IsScalar(c)
    ensures CharLen(EncodeScalar(c) + rest) == |EncodeScalar(c)|
  {
    var e := EncodeScalar(c);
    var s := e + rest;
    assert forall i :: 0 <= i < |e| ==> s[i] == e[i];
  }

  lemma ThreeBytes(a: Byte, b: Byte, d: Byte) returns (c: int)
    requires 0xE0 <= a <= 0xEF && IsCont(b) && IsCont(d) && (a == 0xE0 ==> b >= 0xA0) && (a == 0xED ==> b < 0xA0)
    ensures IsScalar(c) && EncodeScalar(c) == [a, b, d]
  {
    var hi := (a as int - 0xE0) * 0x40 + (b as int - 0x80);
    var lo := d as int - 0x80;
    c := hi * 0x40 + lo;
    assert c / 0x40 == hi && c % 0x40 == lo;
    assert c / 0x1000 == hi / 0x40;
  }

  lemma FourBytes(a: Byte, b: Byte, d: Byte, e: Byte) returns (c: int)
    requires 0xF0 <= a <= 0xF4 && IsCont(b) && IsCont(d) && IsCont(e)
    requires (a == 0xF0 ==> b >= 0x90) && (a == 0xF4 ==> b < 0x90)
    ensures IsScalar(c) && EncodeScalar(c) == [a, b, d, e]
  {
    var top := (a as int - 0xF0) * 0x40 + (b as int - 0x80);
    var hi := top * 0x40 + (d as int - 0x80);
    var lo := e as int - 0x80;
    c := hi * 0x40 + lo;
    assert c / 0x40 == hi && c % 0x40 == lo;
    assert hi / 0x40 == top && hi % 0x40 == d as int - 0x80;
    assert c / 0x1000 == hi / 0x40;
    assert c / 0x4_0000 == top / 0x40;
  }

  /** Every character encodes a scalar value: no surrogate, no overlong form, nothing past
      U+10FFFF. */
  lemma CharIsScalar(s: seq<Byte>) returns (c: int)
    requires CharLen(s) > 0
    ensures IsScalar(c) && s[..CharLen(s)] == EncodeScalar(c)
  {
    hide EncodeScalar;
    var n := CharLen(s);
    if n <= 2 {
      c := if n == 1 then s[0] else (s[0] as int - 0xC0) * 0x40 + (s[1] as int - 0x80);
      ShortScalar(c);
    } else if n == 3 {
      c := ThreeBytes(s[0], s[1], s[2]);
    } else {
      c := FourBytes(s[0], s[1], s[2], s[3]);
    }
  }

  lemma ShortScalar(c: int)
    requires 0 <= c < 0x800
    ensures EncodeScalar(c) == if c < 0x80 then [c] else [0xC0 + c / 0x40, 0x80 + c % 0x40]
  {
  }

  predicate AllScalars(cs: seq<int>) {
    forall i :: 0 <= i < |cs| ==> IsScalar(cs[i])
  }

  function EncodeText(cs: seq<int>): seq<Byte>
    requires AllScalars(cs)
  {
    if cs == [] then [] else EncodeScalar(cs[0]) + EncodeText(cs[1..])
  }

  lemma {:induction false} TextIsValid(cs: seq<int>)
    requires AllScalars(cs)
    ensures Valid(EncodeText(cs))
  {
    hide EncodeScalar;
    if cs != [] {
      var e, rest := EncodeScalar(cs[0]), EncodeText(cs[1..]);
      TextIsValid(cs[1..]);
      ScalarIsChar(cs[0], rest);
      Append(e, rest);
    }
  }

  lemma {:induction false} ValidIsText(s: seq<Byte>) returns (cs: seq<int>)
    requires Valid(s)
    ensures AllScalars(cs) && EncodeText(cs) == s
  {
    hide EncodeScalar;
    if s == [] {
      cs := [];
    } else {
      var c := CharIsScalar(s);
      var more := ValidIsText(s[CharLen(s)..]);
      cs := [c] + more;
      Cons(c, more);
      assert s == s[..CharLen(s)] + s[CharLen(s)..];
    }
  }

  /** A byte string is valid exactly when it encodes a list of scalar values. */
  lemma ValidIffText(s: seq<Byte>)
    ensures Valid(s) <==> exists cs: seq<int> :: AllScalars(cs) && EncodeText(cs) == s
  {
    if Valid(s) {
      var cs := ValidIsText(s);
    }
    forall cs: seq<int> | AllScalars(cs) && EncodeText(cs) == s
      ensures Valid(s)
    {
      TextIsValid(cs);
    }
  }

  // ---- character boundaries ---------------------------------------------------------------------

  /** `str::is_char_boundary`. */
  predicate IsBoundary(s: seq<Byte>, k: nat) {
    k == 0 || k == |s| || (k < |s| && !IsCont(s[k]))
  }

  lemma CharLenPrefix(s: seq<Byte>, k: nat)
    requires CharLen(s) <= k <= |s| && CharLen(s) > 0
    ensures CharLen(s[..k]) == CharLen(s)
  {
  }

  lemma CharLenCut(s: seq<Byte>, k: nat)
    requires 0 < k < CharLen(s)
    ensures IsCont(s[k]) && CharLen(s[..k]) == 0 && !Valid(s[..k])
  {
    assert s[..k][0] == s[0];
    assert k > 1 ==> s[..k][1] == s[1];
    assert k > 2 ==> s[..k][2] == s[2];
  }

  /** Whole-character prefixes are exactly the prefixes that end on a boundary. */
  lemma {:induction false} BoundaryIffValidPrefix(s: seq<Byte>, k: nat)
    requires Valid(s) && k <= |s|
    ensures IsBoundary(s, k) <==> Valid(s[..k])
    decreases |s|
  {
    if s == [] || k == 0 {
      assert s[..k] == [];
    } else {
      var n := CharLen(s);
      if k < n {
        CharLenCut(s, k);
      } else {
        CharLenPrefix(s, k);
        BoundaryIffValidPrefix(s[n..], k - n);
        assert s[..k][n..] == s[n..][..k - n];
        if n < k < |s| {
          assert s[n..][k - n] == s[k];
        } else if k == n && k < |s| {
          assert CharLen(s[n..]) > 0;
          assert s[n..][0] == s[k];
        }
      }
    }
  }

  /** In well-formed text a boundary lies within any three steps back. */
  lemma {:induction false} BoundaryNearby(s: seq<Byte>, k: nat)
    requires Valid(s) && k <= |s|
    ensures exists j :: k - 3 <= j <= k && 0 <= j && IsBoundary(s, j)
    decreases |s|
  {
    if k == 0 || k == |s| {
      assert IsBoundary(s, k);
    } else {
      var n := CharLen(s);
      if k < n {
        assert IsBoundary(s, 0);
      } else {
        BoundaryNearby(s[n..], k - n);
        var j :| k - n - 3 <= j <= k - n && 0 <= j && IsBoundary(s[n..], j);
        if j == 0 && n < |s| {
          assert CharLen(s[n..]) > 0;
          assert s[n] == s[n..][0];
        } else if j < |s[n..]| {
          assert s[n + j] == s[n..][j];
        }
        assert IsBoundary(s, n + j);
      }
    }
  }

  // ---- name truncation -------------------------------------------------------

  /** The largest boundary of `s` that is at most `max`. */
  function FloorBoundary(s: seq<Byte>, max: nat): (k: nat)
    requires max <= |s|
    ensures k <= max && IsBoundary(s, k)
    ensures forall j :: k < j <= max ==> !IsBoundary(s, j)
  {
    if IsBoundary(s, max) then max else FloorBoundary(s, max - 1)
  }

  /** What `encode` keeps of a name. */
  function Truncate(name: Str, max: nat): (r: Str)
    ensures |r| <= max && r <= name
  {
    if |name| <= max then name
    else
      BoundaryIffValidPrefix(name, FloorBoundary(name, max));
      name[..FloorBoundary(name, max)]
  }

  /** The kept name is the longest whole-character prefix within the cap, it is at most
      three bytes short of the cap when anything is dropped, and truncating again
      changes nothing. */
  lemma TruncateIsLongestPrefix(name: Str, max: nat)
    ensures forall k :: |Truncate(name, max)| < k <= |name| && k <= max ==> !Valid(name[..k])
    ensures |name| <= max ==> Truncate(name, max) == name
    ensures |name| > max ==> |Truncate(name, max)| >= max - 3
    ensures Truncate(Truncate(name, max), max) == Truncate(name, max)
  {
    if |name| > max {
      var n := FloorBoundary(name, max);
      forall k | n < k <= max
        ensures !Valid(name[..k])
      {
        BoundaryIffValidPrefix(name, k);
      }
      BoundaryNearby(name, max);
    }
  }

  /** The decrementing loop of `Frame::encode`. */
  method TruncatedLen(name: Str, max: nat) returns (n: nat)
    ensures n <= |name| && name[..n] == Truncate(name, max)
  {
    if |name| <= max {
      n := |name|;
    } else {
      n := max;
      while n > 0 && !IsBoundary(name, n)
        invariant n <= max
        invariant FloorBoundary(name, n) == FloorBoundary(name, max)
      {
        n := n - 1;
      }
    }
  }
}
