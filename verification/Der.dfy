/** DER elements, as `der_take` of hlb-agent reads them (section 8.1.3 of X.690). */
module Der {
  import opened Wrappers
  import opened Bytes

  /** Big-endian value of a run of length bytes. */
  function Fold(bytes: seq<Byte>): (n: nat)
  {
    if bytes == [] then 0 else Fold(bytes[..|bytes| - 1]) * 256 + bytes[|bytes| - 1]
  }

  /** One element: its tag, its content, and what follows it. `None` when cut short, or
      when its length is indefinite or takes more than four bytes. */
  function Take(data: seq<Byte>): (r: Option<(Byte, seq<Byte>, seq<Byte>)>)
  {
    if |data| < 2 then None
    else
      var tag, first, rest := data[0], data[1], data[2..];
      if first < 0x80 then Split(tag, first, rest)
      else
        var n := first - 0x80;
        if n == 0 || n > 4 || |rest| < n then None
        else Split(tag, Fold(rest[..n]), rest[n..])
  }

  function Split(tag: Byte, len: nat, rest: seq<Byte>): (r: Option<(Byte, seq<Byte>, seq<Byte>)>)
  {
    if |rest| < len then None else Some((tag, rest[..len], rest[len..]))
  }

  // ---- The encoder `Take` reads back -------------------------------------------

  /** One element as some encoder wrote it: `lengthBytes` is 0 for the short form, or how
      many bytes the long form spends on the length. */
  datatype Element = Element(tag: Byte, lengthBytes: nat, content: seq<Byte>) {
    ghost predicate Valid() {
      && lengthBytes <= 4
      && (if lengthBytes == 0 then |content| < 0x80 else |content| < Power256(lengthBytes))
    }

    function Encode(): seq<Byte>
      requires Valid()
    {
      if lengthBytes == 0 then [tag, |content|] + content
      else [tag, 0x80 + lengthBytes] + BigEndian(|content|, lengthBytes) + content
    }
  }

  function Power256(n: nat): (p: nat)
    ensures p > 0
  {
    if n == 0 then 1 else 256 * Power256(n - 1)
  }

  /** `value` over exactly `n` bytes, leading zeros included. */
  function BigEndian(value: nat, n: nat): (bytes: seq<Byte>)
    requires value < Power256(n)
    ensures |bytes| == n
  {
    if n == 0 then [] else BigEndian(value / 256, n - 1) + [value % 256]
  }

  lemma {:induction false} FoldBigEndian(value: nat, n: nat)
    requires value < Power256(n)
    ensures Fold(BigEndian(value, n)) == value
  {
    if n > 0 {
      FoldBigEndian(value / 256, n - 1);
      assert BigEndian(value, n)[..n - 1] == BigEndian(value / 256, n - 1);
    }
  }

  lemma {:induction false} BigEndianFold(bytes: seq<Byte>)
    ensures Fold(bytes) < Power256(|bytes|)
    ensures BigEndian(Fold(bytes), |bytes|) == bytes
  {
    if bytes != [] {
      var init := bytes[..|bytes| - 1];
      BigEndianFold(init);
      assert Fold(bytes) / 256 == Fold(init);
      assert bytes == init + [bytes[|bytes| - 1]];
    }
  }

  /** Any element, whatever form its length takes, is read back whole, and what follows
      it is returned untouched. */
  lemma TakeInvertsEncode(e: Element, after: seq<Byte>)
    requires e.Valid()
    ensures Take(e.Encode() + after) == Some((e.tag, e.content, after))
  {
    if e.lengthBytes == 0 {
      TakeShort(e, after);
    } else {
      var rest := e.content + after;
      var length := BigEndian(|e.content|, e.lengthBytes);
      TakeLong(e, length, rest);
      assert rest[..|e.content|] == e.content && rest[|e.content|..] == after;
      FourGrouped([e.tag, 0x80 + e.lengthBytes], length, e.content, after);
    }
  }

  lemma FourGrouped(head: seq<Byte>, length: seq<Byte>, content: seq<Byte>, after: seq<Byte>)
    ensures head + length + content + after == head + (length + (content + after))
  {
  }

  lemma TakeShort(e: Element, after: seq<Byte>)
    requires e.Valid() && e.lengthBytes == 0
    ensures Take(e.Encode() + after) == Some((e.tag, e.content, after))
  {
    var data := e.Encode() + after;
    assert data[2..] == e.content + after;
  }

  lemma TakeLong(e: Element, length: seq<Byte>, rest: seq<Byte>)
    requires e.Valid() && e.lengthBytes > 0 && length == BigEndian(|e.content|, e.lengthBytes)
    requires |rest| >= |e.content|
    ensures Take([e.tag, 0x80 + e.lengthBytes] + (length + rest))
         == Some((e.tag, rest[..|e.content|], rest[|e.content|..]))
  {
    FoldBigEndian(|e.content|, e.lengthBytes);
    var data := [e.tag, 0x80 + e.lengthBytes] + (length + rest);
    assert data[2..] == length + rest;
    assert data[2..][..e.lengthBytes] == length;
    assert data[2..][e.lengthBytes..] == rest;
  }

  /** The element `Take` found at the head of `data`. */
  ghost function Head(data: seq<Byte>): (e: Element)
    requires Take(data).Some?
  {
    var (tag, content, _) := Take(data).value;
    Element(tag, if data[1] < 0x80 then 0 else data[1] - 0x80, content)
  }

  /** No byte is lost or made up: what was read, encoded again as it was, is what was
      there. Every step strictly shrinks what is left. */
  lemma TakeSplitsItsInput(data: seq<Byte>)
    requires Take(data).Some?
    ensures var (tag, content, after) := Take(data).value;
            && Head(data).Valid()
            && data == Head(data).Encode() + after
            && |content| + |after| + 2 <= |data|
  {
    var (tag, content, after) := Take(data).value;
    var rest := data[2..];
    assert data == [data[0], data[1]] + rest;
    if data[1] < 0x80 {
      assert rest == content + after;
    } else {
      TakeLongSplits(data);
    }
  }

  lemma TakeLongSplits(data: seq<Byte>)
    requires Take(data).Some? && data[1] >= 0x80
    ensures var (tag, content, after) := Take(data).value;
            && Head(data).Valid()
            && data == Head(data).Encode() + after
            && |content| + |after| + 2 <= |data|
  {
    var n, rest := data[1] - 0x80, data[2..];
    var length, body := rest[..n], rest[n..];
    var len := Fold(length);
    assert Take(data) == Some((data[0], body[..len], body[len..]));
    var e := Element(data[0], n, body[..len]);
    assert e.Valid() && e.Encode() == [data[0], data[1]] + length + body[..len] by {
      BigEndianFold(length);
    }
    FourParts(data, n, len);
  }

  lemma FourParts(data: seq<Byte>, n: nat, len: nat)
    requires 2 + n + len <= |data|
    ensures data == [data[0], data[1]] + data[2..][..n] + data[2..][n..][..len] + data[2..][n..][len..]
  {
  }

  /** `Take` reads exactly the inputs that begin with an encoded element. */
  lemma TakeReadsExactlyEncodings(data: seq<Byte>, tag: Byte, content: seq<Byte>, after: seq<Byte>)
    ensures Take(data) == Some((tag, content, after))
       <==> exists e: Element :: e.Valid() && e.tag == tag && e.content == content && data == e.Encode() + after
  {
    if Take(data) == Some((tag, content, after)) {
      TakeSplitsItsInput(data);
    }
    if e: Element :| e.Valid() && e.tag == tag && e.content == content && data == e.Encode() + after {
      TakeInvertsEncode(e, after);
    }
  }
}
