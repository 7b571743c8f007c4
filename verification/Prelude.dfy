/** Machine integers, big-endian codecs, and the small result types shared by
    every other module. */
module Prelude {

  type Byte = b: int | 0 <= b < 0x100
  type U16 = x: int | 0 <= x < 0x1_0000
  type U32 = x: int | 0 <= x < 0x1_0000_0000
  type U64 = x: int | 0 <= x < 0x1_0000_0000_0000_0000

  datatype Option<+T> = None | Some(value: T)

  datatype Result<+T, +E> = Ok(value: T) | Err(error: E) {
    predicate IsFailure() {
      Err?
    }

    function PropagateFailure<U>(): Result<U, E>
      requires Err?
    {
      Err(error)
    }

    function Extract(): T
      requires Ok?
    {
      value
    }
  }

  function Min(a: int, b: int): int {
    if a <= b then a else b
  }

  /** The characters of session ids and download tokens: `[A-Za-z0-9_-]`. */
  predicate IsIdByte(b: Byte) {
    0x30 <= b <= 0x39 || 0x41 <= b <= 0x5A || 0x61 <= b <= 0x7A || b == 0x2D || b == 0x5F
  }

  /** In characters. */
  lemma IdBytes(b: Byte)
    ensures var c := b as char;
            IsIdByte(b) <==> 'A' <= c <= 'Z' || 'a' <= c <= 'z' || '0' <= c <= '9' || c == '-' || c == '_'
  {
  }

  // ---- big-endian integers -------------------------------------------------

  function Be16(x: U16): (r: seq<Byte>)
    ensures |r| == 2
  {
    [x / 0x100, x % 0x100]
  }

  function Be32(x: U32): (r: seq<Byte>)
    ensures |r| == 4
  {
    Be16(x / 0x1_0000) + Be16(x % 0x1_0000)
  }

  function Be64(x: U64): (r: seq<Byte>)
    ensures |r| == 8
  {
    Be32(x / 0x1_0000_0000) + Be32(x % 0x1_0000_0000)
  }

  function U16At(s: seq<Byte>, i: nat): U16
    requires i + 2 <= |s|
  {
    s[i] as int * 0x100 + s[i + 1]
  }

  function U32At(s: seq<Byte>, i: nat): U32
    requires i + 4 <= |s|
  {
    U16At(s, i) as int * 0x1_0000 + U16At(s, i + 2)
  }

  function U64At(s: seq<Byte>, i: nat): U64
    requires i + 8 <= |s|
  {
    U32At(s, i) as int * 0x1_0000_0000 + U32At(s, i + 4)
  }

  /** Reading back a big-endian field wherever it sits in a buffer. */
  lemma ReadBe16(s: seq<Byte>, i: nat, x: U16)
    requires i + 2 <= |s| && s[i..i + 2] == Be16(x)
    ensures U16At(s, i) == x
  {
  }

  lemma ReadBe32(s: seq<Byte>, i: nat, x: U32)
    requires i + 4 <= |s| && s[i..i + 4] == Be32(x)
    ensures U32At(s, i) == x
  {
  }

  lemma ReadBe64(s: seq<Byte>, i: nat, x: U64)
    requires i + 8 <= |s| && s[i..i + 8] == Be64(x)
    ensures U64At(s, i) == x
  {
  }

  /** Writing back a field that was just read reproduces the bytes. */
  lemma WriteBe16(s: seq<Byte>, i: nat)
    requires i + 2 <= |s|
    ensures Be16(U16At(s, i)) == s[i..i + 2]
  {
  }

  lemma WriteBe32(s: seq<Byte>, i: nat)
    requires i + 4 <= |s|
    ensures Be32(U32At(s, i)) == s[i..i + 4]
  {
  }

  lemma HalvesOf64(hi: U32, lo: U32)
    ensures (hi as int * 0x1_0000_0000 + lo) / 0x1_0000_0000 == hi
    ensures (hi as int * 0x1_0000_0000 + lo) % 0x1_0000_0000 == lo
  {
  }

  lemma WriteBe64(s: seq<Byte>, i: nat)
    requires i + 8 <= |s|
    ensures Be64(U64At(s, i)) == s[i..i + 8]
  {
    WriteBe32(s, i);
    WriteBe32(s, i + 4);
    HalvesOf64(U32At(s, i), U32At(s, i + 4));
    assert s[i..i + 8] == s[i..i + 4] + s[i + 4..i + 8];
  }

  /** The number that a string of base-256 digits writes, the most significant digit first. */
  function BigEndian(s: seq<Byte>): nat {
    if s == [] then 0 else 0x100 * BigEndian(s[..|s| - 1]) + s[|s| - 1]
  }

  lemma BigEndianSnoc(s: seq<Byte>, b: Byte)
    ensures BigEndian(s + [b]) == 0x100 * BigEndian(s) + b
  {
    assert (s + [b])[..|s|] == s;
  }

  lemma BigEndianPair(a: Byte, b: Byte)
    ensures BigEndian([a, b]) == 0x100 * a + b
  {
    BigEndianSnoc([], a);
    BigEndianSnoc([a], b);
    assert [] + [a] == [a] && [a] + [b] == [a, b];
  }

  lemma BigEndianTwoMore(s: seq<Byte>, t: seq<Byte>)
    requires |t| == 2
    ensures BigEndian(s + t) == 0x1_0000 * BigEndian(s) + BigEndian(t)
  {
    BigEndianSnoc(s, t[0]);
    BigEndianSnoc(s + [t[0]], t[1]);
    BigEndianPair(t[0], t[1]);
    assert s + [t[0]] + [t[1]] == s + t && t == [t[0], t[1]];
  }

  lemma BigEndianFourMore(s: seq<Byte>, t: seq<Byte>)
    requires |t| == 4
    ensures BigEndian(s + t) == 0x1_0000_0000 * BigEndian(s) + BigEndian(t)
  {
    hide BigEndian;
    BigEndianTwoMore(s, t[..2]);
    BigEndianTwoMore(s + t[..2], t[2..]);
    BigEndianTwoMore(t[..2], t[2..]);
    assert s + t[..2] + t[2..] == s + t && t[..2] + t[2..] == t;
  }

  /** The reads and writes of fixed width are those of the base-256 digits. */
  lemma U16Is(s: seq<Byte>, i: nat)
    requires i + 2 <= |s|
    ensures U16At(s, i) == BigEndian(s[i..i + 2])
  {
    BigEndianPair(s[i], s[i + 1]);
    assert s[i..i + 2] == [s[i], s[i + 1]];
  }

  lemma U32Is(s: seq<Byte>, i: nat)
    requires i + 4 <= |s|
    ensures U32At(s, i) == BigEndian(s[i..i + 4])
  {
    hide BigEndian, U16At;
    U16Is(s, i);
    U16Is(s, i + 2);
    BigEndianTwoMore(s[i..i + 2], s[i + 2..i + 4]);
    assert s[i..i + 2] + s[i + 2..i + 4] == s[i..i + 4];
  }

  lemma U64Is(s: seq<Byte>, i: nat)
    requires i + 8 <= |s|
    ensures U64At(s, i) == BigEndian(s[i..i + 8])
  {
    hide BigEndian, U32At;
    U32Is(s, i);
    U32Is(s, i + 4);
    BigEndianFourMore(s[i..i + 4], s[i + 4..i + 8]);
    assert s[i..i + 4] + s[i + 4..i + 8] == s[i..i + 8];
  }

  lemma BeIs(x: U16, y: U32, z: U64)
    ensures BigEndian(Be16(x)) == x && BigEndian(Be32(y)) == y && BigEndian(Be64(z)) == z
  {
    hide BigEndian, Be16, Be32, Be64, U16At, U32At, U64At;
    U16Is(Be16(x), 0);
    U32Is(Be32(y), 0);
    U64Is(Be64(z), 0);
    assert Be16(x)[0..2] == Be16(x) && Be32(y)[0..4] == Be32(y) && Be64(z)[0..8] == Be64(z);
    ReadBe16(Be16(x), 0, x);
    ReadBe32(Be32(y), 0, y);
    ReadBe64(Be64(z), 0, z);
  }

  lemma AppendAssoc<T>(a: seq<T>, b: seq<T>, c: seq<T>)
    ensures (a + b) + c == a + (b + c)
  {
  }

  lemma Cons<T>(x: T, s: seq<T>)
    ensures ([x] + s)[0] == x && ([x] + s)[1..] == s
  {
  }

  lemma Append<T>(a: seq<T>, b: seq<T>)
    ensures |a + b| == |a| + |b| && (a + b)[..|a|] == a && (a + b)[|a|..] == b
  {
  }

  // ---- concatenation ---------------------------------------------------------

  function Flatten<T>(xss: seq<seq<T>>): seq<T> {
    if xss == [] then [] else xss[0] + Flatten(xss[1..])
  }

  lemma {:induction false} FlattenAppend<T>(xss: seq<seq<T>>, yss: seq<seq<T>>)
    ensures Flatten(xss + yss) == Flatten(xss) + Flatten(yss)
  {
    if xss == [] {
      assert xss + yss == yss;
    } else {
      assert (xss + yss)[1..] == xss[1..] + yss;
      FlattenAppend(xss[1..], yss);
    }
  }

  lemma FlattenSnoc<T>(xss: seq<seq<T>>, xs: seq<T>)
    ensures Flatten(xss + [xs]) == Flatten(xss) + xs
  {
    FlattenAppend(xss, [xs]);
    assert Flatten([xs]) == xs + Flatten([]) == xs;
  }
}
