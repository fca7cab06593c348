/** The archive format of a bucket: ustar and pax entries, and a counted trailer. */
module Tarball {
  import opened Wrappers
  import opened Bytes

  type Blob = seq<Byte>

  /** What an archive says of an object: its key, how long it is, when it was written, what
      the store said of it. */
  datatype Entry = Entry(path: Blob, size: nat, mtime: nat, headers: seq<(Blob, Blob)>)

  datatype Object = Object(path: Blob, mtime: nat, headers: seq<(Blob, Blob)>, content: Blob)

  function EntryOf(o: Object): Entry {
    Entry(o.path, |o.content|, o.mtime, o.headers)
  }

  const BLOCK := 512
  /** What eleven octal digits hold; past it, a size goes in pax. */
  const USTAR_MAX := 0x1_FFFF_FFFF

  // ---- Fixed texts -----------------------------------------------------------------

  function Ascii(s: string): (b: Blob)
    requires forall i | 0 <= i < |s| :: s[i] < 128 as char
    ensures |b| == |s| && (forall i | 0 <= i < |s| :: b[i] == s[i] as int) && forall x | x in b :: x < 128
  {
    seq(|s|, i requires 0 <= i < |s| => var b: Byte := s[i] as int; b)
  }

  const TRAILER := Ascii(".homelabus-complete")
  const PAX_NAME := Ascii("PaxHeader")
  const PATH := Ascii("path")
  const SIZE := Ascii("size")
  const HEADER := Ascii("HOMELABUS.header.")
  const MAGIC := Ascii("ustar") + [0, 0x30, 0x30]

  const SPACE: Byte := 0x20
  const EQUALS: Byte := 0x3D
  const NEWLINE: Byte := 0x0A
  const PAX_KIND: Byte := 0x78
  const FILE_KIND: Byte := 0x30

  function Zeros(n: nat): (z: Blob)
    ensures |z| == n
  {
    seq(n, _ => 0)
  }

  function Padding(size: nat): nat {
    (BLOCK - size % BLOCK) % BLOCK
  }

  // ---- Writing ---------------------------------------------------------------------

  /** A number cut to its last digits, and a zero after them. */
  function Octal(value: nat, width: nat): (field: Blob)
    requires width > 0
    ensures |field| == width
  {
    Print(value, width - 1, 8) + [0]
  }

  function OnlyAscii(name: Blob): Blob {
    if name == [] then []
    else (if name[0] < 128 then [name[0]] else []) + OnlyAscii(name[1..])
  }

  /** What of a name the header's field has room for: pax says it whole. */
  function Short(name: Blob): (short: Blob)
    ensures |short| <= 99
  {
    var ascii := OnlyAscii(name);
    if |ascii| > 99 then ascii[..99] else ascii
  }

  function Sum(bytes: Blob): nat {
    if bytes == [] then 0 else Sum(bytes[..|bytes| - 1]) + bytes[|bytes| - 1]
  }

  function UstarHead(name: Blob, size: nat, mtime: nat): (head: Blob)
    ensures |head| == 148
  {
    Short(name) + Zeros(100 - |Short(name)|) + Octal(0x1A4, 8) + Octal(0, 8) + Octal(0, 8)
    + Octal(if size < USTAR_MAX then size else USTAR_MAX, 12) + Octal(mtime, 12)
  }

  function UstarTail(kind: Byte): (tail: Blob)
    ensures |tail| == 356
  {
    [kind] + Zeros(100) + MAGIC + Zeros(247)
  }

  /** Its own field counts as eight spaces in the checksum. */
  function Ustar(name: Blob, size: nat, mtime: nat, kind: Byte): (h: Blob)
    ensures |h| == BLOCK
  {
    var head, tail := UstarHead(name, size, mtime), UstarTail(kind);
    head + (Print(Sum(head) + 8 * SPACE + Sum(tail), 6, 8) + [0, SPACE]) + tail
  }

  /** What a pax record says after its length. */
  function RecordRest(key: Blob, value: Blob): Blob {
    [SPACE] + key + [EQUALS] + value + [NEWLINE]
  }

  /** A pax record's length counts itself. */
  ghost predicate IsLength(n: nat, rest: nat) {
    n == Width(n) + rest
  }

  /** The first length that fits: there is always one. */
  function RecordLength(rest: nat, tried: nat): (n: nat)
    requires rest + tried <= Width(rest + tried) + rest
    ensures IsLength(n, rest)
    decreases 2 * rest + 20 - tried
  {
    WidthIsEnough(rest + tried);
    if Width(rest + tried) == tried then rest + tried
    else
      WidthIsMonotone(rest + tried, rest + tried + 1);
      RecordLength(rest, tried + 1)
  }

  function Record(key: Blob, value: Blob): (record: Blob)
    ensures |record| == RecordLength(|RecordRest(key, value)|, 1)
  {
    var rest := RecordRest(key, value);
    Decimal(RecordLength(|rest|, 1)) + rest
  }

  function HeaderRecords(headers: seq<(Blob, Blob)>): Blob {
    if headers == [] then [] else Record(HEADER + headers[0].0, headers[0].1) + HeaderRecords(headers[1..])
  }

  function Pax(e: Entry): Blob {
    Record(PATH, e.path)
    + (if e.size > USTAR_MAX then Record(SIZE, Decimal(e.size)) else [])
    + HeaderRecords(e.headers)
  }

  /** What comes before an object's content. */
  function EntryStart(e: Entry): Blob {
    var pax := Pax(e);
    Ustar(PAX_NAME, |pax|, e.mtime, PAX_KIND) + pax + Zeros(Padding(|pax|))
    + Ustar(e.path, e.size, e.mtime, FILE_KIND)
  }

  /** `start`: what comes before the content of an entry. */
  function EntryBytes(start: Entry -> Blob, o: Object): Blob {
    start(EntryOf(o)) + o.content + Zeros(Padding(|o.content|))
  }

  function EntriesBytes(start: Entry -> Blob, objects: seq<Object>): Blob {
    if objects == [] then [] else EntryBytes(start, objects[0]) + EntriesBytes(start, objects[1..])
  }

  /** The trailer up to its count, which is all a reader needs of it. */
  function TrailerStart(count: nat): (t: Blob)
    ensures |t| == BLOCK + Width(count)
  {
    Ustar(TRAILER, Width(count), 0, FILE_KIND) + Decimal(count)
  }

  function TrailerEnd(count: nat): Blob {
    TrailerStart(count) + Zeros(Padding(Width(count))) + Zeros(2 * BLOCK)
  }

  function Archive(objects: seq<Object>): Blob {
    EntriesBytes(EntryStart, objects) + TrailerEnd(|objects|)
  }

  // ---- Reading ---------------------------------------------------------------------

  function UpTo(bytes: Blob, stop: set<Byte>): (run: Blob)
    ensures |run| <= |bytes| && run == bytes[..|run|]
    ensures forall b | b in run :: b !in stop
    ensures |run| < |bytes| ==> bytes[|run|] in stop
  {
    if bytes == [] || bytes[0] in stop then [] else [bytes[0]] + UpTo(bytes[1..], stop)
  }

  predicate White(b: Byte) {
    0x09 <= b <= 0x0D || b == SPACE
  }

  function TrimStart(bytes: Blob): Blob {
    if bytes != [] && White(bytes[0]) then TrimStart(bytes[1..]) else bytes
  }

  function TrimEnd(bytes: Blob): Blob {
    if bytes != [] && White(bytes[|bytes| - 1]) then TrimEnd(bytes[..|bytes| - 1]) else bytes
  }

  function Trim(bytes: Blob): Blob {
    TrimEnd(TrimStart(bytes))
  }

  /** An unsigned 64-bit number, as the standard library reads one. */
  function Number(s: Blob, base: nat): Option<nat>
    requires 2 <= base <= 10
  {
    var n := Parse(if s != [] && s[0] == 0x2B then s[1..] else s, base);
    if n.Some? && n.value < 0x1_0000_0000_0000_0000 then n else None
  }

  function ParseOctal(field: Blob): Option<nat> {
    var s := UpTo(field, {0, SPACE});
    if s == [] then Some(0) else Number(Trim(s), 8)
  }

  /** A record, and its length; nothing when it has no `=`. */
  function ReadRecord(body: Blob): (r: Option<(seq<(Blob, Blob)>, nat)>)
    ensures r.Some? ==> 0 < r.value.1 <= |body|
  {
    var space := |UpTo(body, {SPACE})|;
    if space == |body| then None
    else
      match Number(body[..space], 10)
      case None => None
      case Some(n) => if n <= space + 1 || n > |body| then None else Some((KeyAndValue(body[space + 1..n - 1]), n))
  }

  /** The records of a pax body, up to its end or a zero. */
  function ParsePax(body: Blob): Option<seq<(Blob, Blob)>>
    decreases |body|
  {
    if body == [] || body[0] == 0 then Some([])
    else
      match ReadRecord(body)
      case None => None
      case Some((pair, n)) =>
        match ParsePax(body[n..])
        case None => None
        case Some(others) => Some(pair + others)
  }

  function KeyAndValue(record: Blob): seq<(Blob, Blob)> {
    var key := UpTo(record, {EQUALS});
    if |key| == |record| then [] else [(key, record[|key| + 1..])]
  }

  /** The first value of a key. */
  function Lookup(pax: seq<(Blob, Blob)>, key: Blob): Option<Blob> {
    if pax == [] then None else if pax[0].0 == key then Some(pax[0].1) else Lookup(pax[1..], key)
  }

  function HeadersOf(pax: seq<(Blob, Blob)>): seq<(Blob, Blob)> {
    if pax == [] then []
    else (if HEADER <= pax[0].0 then [(pax[0].0[|HEADER|..], pax[0].1)] else []) + HeadersOf(pax[1..])
  }

  function TrimZeros(name: Blob): Blob {
    if name != [] && name[|name| - 1] == 0 then TrimZeros(name[..|name| - 1]) else name
  }

  datatype Item =
    | AnObject(entry: Entry)
    | TheEnd

  datatype Block = Block(kind: Byte, name: Blob, size: nat, mtime: nat)

  /** What a header block says; `None`: only zeros, or unreadable. */
  function ReadBlock(h: Blob): Option<Block> {
    if |h| != BLOCK then None
    else
      var size, mtime := ParseOctal(h[124..136]), ParseOctal(h[136..148]);
      if (forall b | b in h :: b == 0) || size.None? || mtime.None? then None
      else Some(Block(h[156], TrimZeros(h[..100]), size.value, mtime.value))
  }

  /** What a header block says. */
  type Header = Blob -> Option<Block>

  /** The next object or the trailer, and how many bytes said so; `None`: refused, or cut
      short. `count`: the objects read before. */
  function Next(read: Header, input: Blob, pax: seq<(Blob, Blob)>, count: nat): Option<(Item, nat)>
    decreases |input|, 1
  {
    if |input| < BLOCK then None
    else
      match read(input[..BLOCK])
      case None => None
      case Some(h) =>
        if h.kind == PAX_KIND then OfPax(read, input, h.size, BLOCK + h.size + Padding(h.size), count)
        else if h.kind != FILE_KIND && h.kind != 0 then None
        else OfFile(input, pax, h, count)
  }

  /** The records before a header, which begins `after` them. */
  function OfPax(read: Header, input: Blob, size: nat, after: nat, count: nat): Option<(Item, nat)>
    requires BLOCK + size <= after
    decreases |input|, 0
  {
    if |input| < after then None
    else Further(AfterPax(read, input[BLOCK..BLOCK + size], input[after..], count), after)
  }

  /** `body`: the records of the header that begins `rest`. */
  function AfterPax(read: Header, body: Blob, rest: Blob, count: nat): Option<(Item, nat)>
    decreases |rest|, 2
  {
    match ParsePax(body)
    case None => None
    case Some(pax) => Next(read, rest, pax, count)
  }

  function Further(r: Option<(Item, nat)>, before: nat): Option<(Item, nat)> {
    match r
    case None => None
    case Some((item, n)) => Some((item, before + n))
  }

  function OfFile(input: Blob, pax: seq<(Blob, Blob)>, h: Block, count: nat): Option<(Item, nat)>
    requires |input| >= BLOCK
  {
    var path := match Lookup(pax, PATH) case Some(p) => p case None => h.name;
    var size := match Lookup(pax, SIZE)
      case None => h.size
      case Some(v) => match Number(v, 10) case None => h.size case Some(n) => n;
    if path == TRAILER then OfTrailer(input, if size < 32 then size else 32, count)
    else Some((AnObject(Entry(path, size, h.mtime, HeadersOf(pax))), BLOCK))
  }

  /** The count the trailer says agrees with the objects read. */
  function OfTrailer(input: Blob, digits: nat, count: nat): Option<(Item, nat)>
    requires |input| >= BLOCK
  {
    if |input| < BLOCK + digits || Number(Trim(input[BLOCK..BLOCK + digits]), 10) != Some(count) then None
    else Some((TheEnd, BLOCK + digits))
  }

  /** What an archive was read to hold, object after object; `whole`: up to its trailer. */
  datatype Read = Read(objects: seq<Object>, whole: bool)

  /** What says the next object of an archive, after `count` of them, and in how many bytes. */
  type Reader = (Blob, nat) -> Option<(Item, nat)>

  function TarReader(): Reader {
    (input, count) => Next(ReadBlock, input, [], count)
  }

  function ReadAll(next: Reader, input: Blob, count: nat): Read
    decreases |input|, 1
  {
    match next(input, count)
    case None => Read([], false)
    case Some((TheEnd, _)) => Read([], true)
    case Some((AnObject(e), n)) =>
      if n == 0 then Read([], false)
      else OfObject(next, input, e, n, n + e.size, n + e.size + Padding(e.size), count)
  }

  /** An object whose content is from `n` to `end`, and its padding up to `after`. */
  function OfObject(next: Reader, input: Blob, e: Entry, n: nat, end: nat, after: nat, count: nat): Read
    requires 0 < n <= end <= after
    decreases |input|, 0
  {
    if |input| < end then Read([], false)
    else
      var whole := Object(e.path, e.mtime, e.headers, input[n..end]);
      if |input| < after then Read([whole], false)
      else
        var others := ReadAll(next, input[after..], count + 1);
        Read([whole] + others.objects, others.whole)
  }

  // ---- What reading looks at -------------------------------------------------------

  /** A reader needs every byte it says it read. */
  lemma {:induction false} NextNeedsThemAll(read: Header, a: Blob, pax: seq<(Blob, Blob)>, count: nat, cut: nat)
    requires Next(read, a, pax, count).Some? && cut <= |a| && cut < Next(read, a, pax, count).value.1
    ensures Next(read, a[..cut], pax, count) == None
    decreases |a|, 1
  {
    if cut >= BLOCK {
      assert a[..cut][..BLOCK] == a[..BLOCK];
      var h := read(a[..BLOCK]).value;
      if h.kind == PAX_KIND { OfPaxNeedsThemAll(read, a, h.size, BLOCK + h.size + Padding(h.size), count, cut); }
    }
  }

  lemma {:induction false} OfPaxNeedsThemAll(read: Header, a: Blob, size: nat, after: nat, count: nat, cut: nat)
    requires BLOCK + size <= after && OfPax(read, a, size, after, count).Some? && cut <= |a|
    requires cut < OfPax(read, a, size, after, count).value.1
    ensures OfPax(read, a[..cut], size, after, count) == None
    decreases |a|, 0
  {
    if cut >= after {
      assert a[..cut][BLOCK..BLOCK + size] == a[BLOCK..BLOCK + size];
      assert a[..cut][after..] == a[after..][..cut - after];
      AfterPaxNeedsThemAll(read, a[BLOCK..BLOCK + size], a[after..], count, cut - after);
    }
  }

  lemma {:induction false} AfterPaxNeedsThemAll(read: Header, body: Blob, a: Blob, count: nat, cut: nat)
    requires AfterPax(read, body, a, count).Some? && cut <= |a| && cut < AfterPax(read, body, a, count).value.1
    ensures AfterPax(read, body, a[..cut], count) == None
    decreases |a|, 2
  {
    NextNeedsThemAll(read, a, ParsePax(body).value, count, cut);
  }
}
