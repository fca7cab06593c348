/** What was written is what is read, and an archive cut short is never read whole. */
module TarballRoundTrip {
  import opened Wrappers
  import opened Sequences
  import opened Bytes
  import opened Tarball

  // ---- Runs of digits --------------------------------------------------------------

  lemma {:induction false} UpToStop(run: Blob, rest: Blob, stop: set<Byte>)
    requires forall b | b in run :: b !in stop
    requires rest == [] || rest[0] in stop
    ensures UpTo(run + rest, stop) == run
  {
    if run == [] {
      assert run + rest == rest;
    } else {
      assert (run + rest)[0] == run[0] && (run + rest)[1..] == run[1..] + rest;
      assert run[0] in run;
      UpToStop(run[1..], rest, stop);
    }
  }

  lemma TrimDigits(s: Blob, base: nat)
    requires s != [] && 2 <= base <= 10 && forall b | b in s :: Digit(b, base)
    ensures Trim(s) == s
  {
    assert s[0] in s && s[|s| - 1] in s;
  }

  lemma NumberReads(s: Blob, n: nat, base: nat)
    requires 2 <= base <= 10 && Parse(s, base) == Some(n) && n < 0x1_0000_0000_0000_0000
    ensures Number(s, base) == Some(n)
  {
    assert s[0] in s;
  }

  /** What twelve bytes keep of a number: eleven octal digits. */
  function Kept(value: nat): (kept: nat)
    ensures kept <= USTAR_MAX && (value <= USTAR_MAX ==> kept == value)
  {
    value % (USTAR_MAX + 1)
  }

  lemma OctalReads(value: nat)
    ensures ParseOctal(Octal(value, 12)) == Some(Kept(value))
  {
    assert Power(8, 11) == USTAR_MAX + 1 by { EightToTheEleventh(); }
    assert value == value / (USTAR_MAX + 1) * Power(8, 11) + Kept(value);
    SameLastDigits(value, Kept(value), value / (USTAR_MAX + 1), 11);
    KeptReads(Kept(value));
  }

  lemma KeptReads(value: nat)
    requires value <= USTAR_MAX
    ensures ParseOctal(Print(value, 11, 8) + [0]) == Some(value)
  {
    var digits := Print(value, 11, 8);
    assert Power(8, 11) == USTAR_MAX + 1 by { EightToTheEleventh(); }
    ParsePrinted(value, 11, 8);
    UpToStop(digits, [0], {0, SPACE});
    TrimDigits(digits, 8);
    NumberReads(digits, value, 8);
  }

  lemma EightToTheEleventh()
    ensures Power(8, 11) == USTAR_MAX + 1
  {
    assert Power(8, 4) == 4096;
    assert Power(8, 8) == 4096 * 4096 by { assert Power(8, 6) == 64 * Power(8, 4); }
    assert Power(8, 11) == 512 * Power(8, 8) by { assert Power(8, 9) == 8 * Power(8, 8); }
  }

  // ---- Header blocks ---------------------------------------------------------------

  lemma {:induction false} TrimZerosAfter(name: Blob, n: nat)
    ensures TrimZeros(name + Zeros(n)) == TrimZeros(name)
  {
    if n == 0 {
      assert name + Zeros(0) == name;
    } else {
      assert (name + Zeros(n))[..|name| + n - 1] == name + Zeros(n - 1);
      TrimZerosAfter(name, n - 1);
    }
  }

  lemma UstarFields(name: Blob, size: nat, mtime: nat, kind: Byte)
    ensures var h := Ustar(name, size, mtime, kind);
            && h[..100] == Short(name) + Zeros(100 - |Short(name)|)
            && h[124..136] == Octal(if size < USTAR_MAX then size else USTAR_MAX, 12)
            && h[136..148] == Octal(mtime, 12) && h[156] == kind
  {
    var head, tail := UstarHead(name, size, mtime), UstarTail(kind);
    var h := Ustar(name, size, mtime, kind);
    assert h[..148] == head;
    assert h[..100] == head[..100] && h[124..136] == head[124..136] && h[136..148] == head[136..148];
    assert h[156] == tail[0];
  }

  lemma FieldReads(field: Blob, value: nat)
    requires field == Octal(value, 12)
    ensures ParseOctal(field) == Some(Kept(value))
  {
    OctalReads(value);
  }

  lemma NameReads(field: Blob, name: Blob)
    requires |name| <= 100 && field == name + Zeros(100 - |name|)
    ensures TrimZeros(field) == TrimZeros(name)
  {
    TrimZerosAfter(name, 100 - |name|);
  }

  lemma BlockReads(h: Blob, name: Blob, size: nat, mtime: nat, kind: Byte)
    requires |h| == BLOCK && |name| <= 100 && size <= USTAR_MAX
    requires h[..100] == name + Zeros(100 - |name|)
    requires h[124..136] == Octal(size, 12) && h[136..148] == Octal(mtime, 12) && h[156] == kind
    ensures ReadBlock(h) == Some(Block(kind, TrimZeros(name), size, Kept(mtime)))
  {
    FieldReads(h[124..136], size);
    FieldReads(h[136..148], mtime);
    NameReads(h[..100], name);
    NotAllZero(h, mtime);
    BlockIs(h, TrimZeros(name), size, Kept(mtime));
  }

  lemma BlockIs(h: Blob, name: Blob, size: nat, mtime: nat)
    requires |h| == BLOCK && (exists b :: b in h && b != 0) && TrimZeros(h[..100]) == name
    requires ParseOctal(h[124..136]) == Some(size) && ParseOctal(h[136..148]) == Some(mtime)
    ensures ReadBlock(h) == Some(Block(h[156], name, size, mtime))
  {
  }

  lemma NotAllZero(h: Blob, mtime: nat)
    requires |h| == BLOCK && h[136..148] == Octal(mtime, 12)
    ensures exists b :: b in h && b != 0
  {
    var digits := Print(mtime, 11, 8);
    assert digits[0] in digits;
    assert h[136] == h[136..148][0] == digits[0];
    assert h[136] in h;
  }

  lemma UstarReads(name: Blob, size: nat, mtime: nat, kind: Byte)
    ensures ReadBlock(Ustar(name, size, mtime, kind))
            == Some(Block(kind, TrimZeros(Short(name)), if size < USTAR_MAX then size else USTAR_MAX, Kept(mtime)))
  {
    UstarFields(name, size, mtime, kind);
    BlockReads(Ustar(name, size, mtime, kind), Short(name), if size < USTAR_MAX then size else USTAR_MAX, mtime, kind);
  }

  lemma {:induction false} SumOfBoth(a: Blob, b: Blob)
    ensures Sum(a + b) == Sum(a) + Sum(b)
    decreases |b|
  {
    if b == [] {
      assert a + b == a;
    } else {
      assert (a + b)[..|a + b| - 1] == a + b[..|b| - 1];
      SumOfBoth(a, b[..|b| - 1]);
    }
  }

  lemma {:induction false} SumIsSmall(bytes: Blob)
    ensures Sum(bytes) <= 255 * |bytes|
  {
    if bytes != [] { SumIsSmall(bytes[..|bytes| - 1]); }
  }

  lemma {:induction false} SumOfSpaces(n: nat)
    ensures Sum(seq(n, _ => SPACE)) == n * SPACE
  {
    if n > 0 {
      SumOfSpaces(n - 1);
      assert seq(n, _ => SPACE)[..n - 1] == seq(n - 1, _ => SPACE);
    }
  }

  lemma DigitsThen(value: nat, width: nat, after: Blob)
    requires 0 < width && value < Power(8, width) && value < 0x1_0000_0000_0000_0000
    requires after != [] && after[0] in {0, SPACE}
    ensures ParseOctal(Print(value, width, 8) + after) == Some(value)
  {
    var digits := Print(value, width, 8);
    ParsePrinted(value, width, 8);
    UpToStop(digits, after, {0, SPACE});
    TrimDigits(digits, 8);
    NumberReads(digits, value, 8);
  }

  /** Its checksum field says, in octal, the sum of the block with that field all spaces. */
  lemma ChecksumReads(name: Blob, size: nat, mtime: nat, kind: Byte)
    ensures var h := Ustar(name, size, mtime, kind);
            ParseOctal(h[148..156]) == Some(Sum(h[..148] + seq(8, _ => SPACE) + h[156..]))
  {
    var head, tail := UstarHead(name, size, mtime), UstarTail(kind);
    var h, spaces: Blob := Ustar(name, size, mtime, kind), seq(8, _ => SPACE);
    var sum := Sum(head) + 8 * SPACE + Sum(tail);
    UstarParts(name, size, mtime, kind);
    assert h[148..156] == Print(sum, 6, 8) + [0, SPACE];
    SumOfBoth(head + spaces, tail);
    SumOfBoth(head, spaces);
    SumOfSpaces(8);
    SumIsSmall(head);
    SumIsSmall(tail);
    assert Power(8, 6) == 64 * Power(8, 4) && Power(8, 4) == 4096;
    DigitsThen(sum, 6, [0, SPACE]);
  }

  /** What other readers look for, where they look for it: the magic, the version, and a mode
      that lets the owner write and everyone read. */
  lemma OthersRead(name: Blob, size: nat, mtime: nat, kind: Byte)
    ensures var h := Ustar(name, size, mtime, kind);
            && h[257..265] == Ascii("ustar") + [0] + Ascii("00")
            && ParseOctal(h[100..108]) == Some(4 * 8 + 4 + 6 * 64)
            && ParseOctal(h[108..116]) == ParseOctal(h[116..124]) == Some(0)
  {
    OwnerFields(name, size, mtime, kind);
    MagicField(name, size, mtime, kind);
    SevenDigits();
    DigitsThen(0x1A4, 7, [0]);
    DigitsThen(0, 7, [0]);
  }

  lemma SevenDigits()
    ensures Power(8, 7) == 2_097_152
  {
    assert Power(8, 4) == 4096 && Power(8, 7) == 512 * Power(8, 4);
  }

  lemma OwnerFields(name: Blob, size: nat, mtime: nat, kind: Byte)
    ensures var h := Ustar(name, size, mtime, kind);
            h[100..108] == Octal(0x1A4, 8) && h[108..116] == h[116..124] == Octal(0, 8)
  {
    var head, h := UstarHead(name, size, mtime), Ustar(name, size, mtime, kind);
    UstarParts(name, size, mtime, kind);
    HeadOwner(name, size, mtime);
    assert h[100..108] == h[..148][100..108] && h[108..116] == h[..148][108..116];
    assert h[116..124] == h[..148][116..124];
  }

  lemma UstarParts(name: Blob, size: nat, mtime: nat, kind: Byte)
    ensures Ustar(name, size, mtime, kind)[..148] == UstarHead(name, size, mtime)
    ensures Ustar(name, size, mtime, kind)[156..] == UstarTail(kind)
  {
  }

  lemma HeadOwner(name: Blob, size: nat, mtime: nat)
    ensures var head := UstarHead(name, size, mtime);
            head[100..108] == Octal(0x1A4, 8) && head[108..116] == head[116..124] == Octal(0, 8)
  {
    var named, rest := Short(name) + Zeros(100 - |Short(name)|), Octal(0x1A4, 8) + Octal(0, 8) + Octal(0, 8);
    var numbers := Octal(if size < USTAR_MAX then size else USTAR_MAX, 12) + Octal(mtime, 12);
    assert UstarHead(name, size, mtime) == named + rest + numbers;
    assert (named + rest + numbers)[100..124] == rest;
    assert rest[..8] == Octal(0x1A4, 8) && rest[8..16] == Octal(0, 8) && rest[16..] == Octal(0, 8);
  }

  lemma MagicField(name: Blob, size: nat, mtime: nat, kind: Byte)
    ensures Ustar(name, size, mtime, kind)[257..265] == MAGIC == Ascii("ustar") + [0] + Ascii("00")
  {
    var tail, h := UstarTail(kind), Ustar(name, size, mtime, kind);
    UstarParts(name, size, mtime, kind);
    assert h[257..265] == h[156..][101..109] == MAGIC;
  }

  /** A block of a kind that is neither pax's nor a file's is refused; a file's is either of
      the two tar has had. */
  lemma KindsRead(name: Blob, size: nat, mtime: nat, kind: Byte, rest: Blob, pax: seq<(Blob, Blob)>, count: nat)
    ensures kind !in {PAX_KIND, FILE_KIND, 0} ==>
              Next(ReadBlock, Ustar(name, size, mtime, kind) + rest, pax, count) == None
    ensures Next(ReadBlock, Ustar(name, size, mtime, 0) + rest, pax, count)
            == Next(ReadBlock, Ustar(name, size, mtime, FILE_KIND) + rest, pax, count)
  {
    var a, b := Ustar(name, size, mtime, 0), Ustar(name, size, mtime, FILE_KIND);
    var c := Ustar(name, size, mtime, kind);
    UstarReads(name, size, mtime, 0);
    UstarReads(name, size, mtime, FILE_KIND);
    UstarReads(name, size, mtime, kind);
    assert (a + rest)[..BLOCK] == a && (b + rest)[..BLOCK] == b && (c + rest)[..BLOCK] == c;
    FileByItsBlock(a, b, rest, pax, Block(0, TrimZeros(Short(name)), if size < USTAR_MAX then size else USTAR_MAX,
                                          Kept(mtime)), count);
  }

  lemma FileByItsBlock(a: Blob, b: Blob, rest: Blob, pax: seq<(Blob, Blob)>, h: Block, count: nat)
    requires |a| == |b| == BLOCK
    ensures OfFile(a + rest, pax, h, count) == OfFile(b + rest, pax, h.(kind := FILE_KIND), count)
  {
    var size := match Lookup(pax, SIZE)
      case None => h.size
      case Some(v) => match Number(v, 10) case None => h.size case Some(n) => n;
    TrailerByItsBody(a, b, rest, if size < 32 then size else 32, count);
  }

  lemma TrailerByItsBody(a: Blob, b: Blob, rest: Blob, digits: nat, count: nat)
    requires |a| == |b| == BLOCK
    ensures OfTrailer(a + rest, digits, count) == OfTrailer(b + rest, digits, count)
  {
    if digits <= |rest| {
      assert (a + rest)[BLOCK..BLOCK + digits] == rest[..digits] == (b + rest)[BLOCK..BLOCK + digits];
    }
  }

  // ---- pax records -----------------------------------------------------------------

  lemma KeyAndValueReads(key: Blob, value: Blob)
    requires EQUALS !in key
    ensures KeyAndValue(key + [EQUALS] + value) == [(key, value)]
  {
    assert key + [EQUALS] + value == key + ([EQUALS] + value);
    UpToStop(key, [EQUALS] + value, {EQUALS});
  }

  lemma RecordSlices(digits: Blob, pair: Blob, more: Blob, n: nat)
    requires digits != [] && n == |digits| + |pair| + 2
    ensures var body := digits + ([SPACE] + pair + [NEWLINE]) + more;
            && |body| >= n && body[..|digits|] == digits && body[0] == digits[0]
            && body[|digits| + 1..n - 1] == pair && body[n..] == more
            && body == digits + (([SPACE] + pair + [NEWLINE]) + more)
  {
  }

  lemma BodyReads(digits: Blob, key: Blob, value: Blob, more: Blob, n: nat)
    requires digits != [] && (forall b | b in digits :: Digit(b, 10)) && Number(digits, 10) == Some(n)
    requires n == |digits| + |key| + 1 + |value| + 2
    requires EQUALS !in key
    ensures ReadRecord(digits + ([SPACE] + (key + [EQUALS] + value) + [NEWLINE]) + more) == Some(([(key, value)], n))
  {
    var pair := key + [EQUALS] + value;
    assert digits[0] in digits;
    RecordSlices(digits, pair, more, n);
    UpToStop(digits, ([SPACE] + pair + [NEWLINE]) + more, {SPACE});
    KeyAndValueReads(key, value);
  }

  lemma RecordIs(key: Blob, value: Blob) returns (n: nat)
    ensures n == |Record(key, value)| == Width(n) + |key| + 1 + |value| + 2
    ensures Record(key, value) == Decimal(n) + ([SPACE] + (key + [EQUALS] + value) + [NEWLINE])
  {
    var rest := RecordRest(key, value);
    n := RecordLength(|rest|, 1);
    assert rest == [SPACE] + (key + [EQUALS] + value) + [NEWLINE];
  }

  lemma OneRead(body: Blob, pair: seq<(Blob, Blob)>, n: nat, more: Blob)
    requires body != [] && body[0] != 0 && ReadRecord(body) == Some((pair, n)) && body[n..] == more
    requires ParsePax(more).Some?
    ensures ParsePax(body) == Some(pair + ParsePax(more).value)
  {
  }

  lemma DigitsRead(digits: Blob, key: Blob, value: Blob, more: Blob, n: nat)
    requires digits != [] && (forall b | b in digits :: Digit(b, 10)) && Number(digits, 10) == Some(n)
    requires n == |digits| + |key| + 1 + |value| + 2
    requires EQUALS !in key && ParsePax(more).Some?
    ensures ParsePax(digits + ([SPACE] + (key + [EQUALS] + value) + [NEWLINE]) + more)
            == Some([(key, value)] + ParsePax(more).value)
  {
    var body := digits + ([SPACE] + (key + [EQUALS] + value) + [NEWLINE]) + more;
    assert digits[0] in digits;
    RecordSlices(digits, key + [EQUALS] + value, more, n);
    BodyReads(digits, key, value, more, n);
    OneRead(body, [(key, value)], n, more);
  }

  lemma RecordReads(key: Blob, value: Blob, more: Blob)
    requires EQUALS !in key && |Record(key, value)| <= USTAR_MAX && ParsePax(more).Some?
    ensures ParsePax(Record(key, value) + more) == Some([(key, value)] + ParsePax(more).value)
  {
    var n := RecordIs(key, value);
    ParseDecimal(n);
    NumberReads(Decimal(n), n, 10);
    DigitsRead(Decimal(n), key, value, more, n);
  }

  // ---- An object's records ---------------------------------------------------------

  function HeaderPairs(headers: seq<(Blob, Blob)>): seq<(Blob, Blob)> {
    if headers == [] then [] else [(HEADER + headers[0].0, headers[0].1)] + HeaderPairs(headers[1..])
  }

  function Pairs(e: Entry): seq<(Blob, Blob)> {
    [(PATH, e.path)] + (if e.size > USTAR_MAX then [(SIZE, Decimal(e.size))] else []) + HeaderPairs(e.headers)
  }

  /** What the format can carry: header names are tokens, with no `=`; an object named as the
      trailer is refused; sizes are 64-bit. */
  ghost predicate Writable(e: Entry) {
    && e.path != TRAILER
    && (forall h | h in e.headers :: EQUALS !in h.0)
    && |Pax(e)| <= USTAR_MAX && e.size < 0x1_0000_0000_0000_0000
  }

  /** An entry as it is read: its time loses what the header's field has no room for. */
  function AsRead(e: Entry): Entry {
    e.(mtime := Kept(e.mtime))
  }

  function ObjectAsRead(o: Object): Object {
    o.(mtime := Kept(o.mtime))
  }

  function AllAsRead(objects: seq<Object>): (read: seq<Object>)
    ensures |read| == |objects| && forall i | 0 <= i < |objects| :: read[i] == ObjectAsRead(objects[i])
  {
    seq(|objects|, i requires 0 <= i < |objects| => ObjectAsRead(objects[i]))
  }

  lemma KeysApart(name: Blob)
    ensures EQUALS !in PATH && EQUALS !in SIZE && EQUALS !in HEADER
    ensures PATH != SIZE && !(HEADER <= PATH) && !(HEADER <= SIZE)
    ensures HEADER + name != PATH && HEADER + name != SIZE && HEADER <= HEADER + name
    ensures (HEADER + name)[|HEADER|..] == name
  {
    assert PATH[0] == 0x70 && SIZE[0] == 0x73 && HEADER[0] == 0x48;
    assert (HEADER + name)[0] == 0x48;
  }

  lemma {:induction false} HeaderRecordsRead(headers: seq<(Blob, Blob)>)
    requires forall h | h in headers :: EQUALS !in h.0
    requires |HeaderRecords(headers)| <= USTAR_MAX
    ensures ParsePax(HeaderRecords(headers)) == Some(HeaderPairs(headers))
    ensures Lookup(HeaderPairs(headers), PATH) == None && Lookup(HeaderPairs(headers), SIZE) == None
    ensures HeadersOf(HeaderPairs(headers)) == headers
  {
    if headers != [] {
      var (name, value) := headers[0];
      var others := HeaderPairs(headers[1..]);
      assert headers[0] in headers && headers == [headers[0]] + headers[1..];
      assert forall h | h in headers[1..] :: h in headers;
      HeaderRecordsRead(headers[1..]);
      KeysApart(name);
      RecordReads(HEADER + name, value, HeaderRecords(headers[1..]));
      assert HeaderPairs(headers)[1..] == others;
    }
  }

  lemma PaxReads(e: Entry)
    requires Writable(e)
    ensures ParsePax(Pax(e)) == Some(Pairs(e))
  {
    KeysApart([]);
    var path, headers := Record(PATH, e.path), HeaderRecords(e.headers);
    var sized := if e.size > USTAR_MAX then Record(SIZE, Decimal(e.size)) else [];
    var sizes := if e.size > USTAR_MAX then [(SIZE, Decimal(e.size))] else [];
    HeaderRecordsRead(e.headers);
    assert ParsePax(sized + headers) == Some(sizes + HeaderPairs(e.headers)) by {
      if e.size > USTAR_MAX {
        RecordReads(SIZE, Decimal(e.size), headers);
      } else {
        assert sized + headers == headers && sizes + HeaderPairs(e.headers) == HeaderPairs(e.headers);
      }
    }
    RecordReads(PATH, e.path, sized + headers);
    Regrouped(path, sized, headers);
    Regrouped([(PATH, e.path)], sizes, HeaderPairs(e.headers));
  }

  lemma FirstSays(pair: (Blob, Blob), others: seq<(Blob, Blob)>, key: Blob)
    ensures Lookup([pair] + others, key) == if pair.0 == key then Some(pair.1) else Lookup(others, key)
    ensures !(HEADER <= pair.0) ==> HeadersOf([pair] + others) == HeadersOf(others)
  {
    assert ([pair] + others)[1..] == others;
  }

  lemma PairsSay(e: Entry)
    requires Writable(e)
    ensures Lookup(Pairs(e), PATH) == Some(e.path)
    ensures Lookup(Pairs(e), SIZE) == if e.size > USTAR_MAX then Some(Decimal(e.size)) else None
    ensures HeadersOf(Pairs(e)) == e.headers
  {
    var headers := HeaderPairs(e.headers);
    var sizes := if e.size > USTAR_MAX then [(SIZE, Decimal(e.size))] else [];
    KeysApart([]);
    HeaderRecordsRead(e.headers);
    Regrouped([(PATH, e.path)], sizes, headers);
    FirstSays((PATH, e.path), sizes + headers, PATH);
    FirstSays((PATH, e.path), sizes + headers, SIZE);
    if e.size > USTAR_MAX {
      FirstSays((SIZE, Decimal(e.size)), headers, SIZE);
    } else {
      assert sizes + headers == headers;
    }
  }

  // ---- An entry --------------------------------------------------------------------

  /** The size in the header, or in pax when the header's field is too short for it. */
  lemma SizeReads(e: Entry)
    requires Writable(e)
    ensures e.size > USTAR_MAX ==> Number(Decimal(e.size), 10) == Some(e.size)
  {
    ParseDecimal(e.size);
    NumberReads(Decimal(e.size), e.size, 10);
  }

  lemma OfFileReads(e: Entry, input: Blob, h: Block, count: nat)
    requires Writable(e) && |input| >= BLOCK
    requires h.size == (if e.size < USTAR_MAX then e.size else USTAR_MAX) && h.mtime == Kept(e.mtime)
    ensures OfFile(input, Pairs(e), h, count) == Some((AnObject(AsRead(e)), BLOCK))
  {
    PairsSay(e);
    SizeReads(e);
  }

  /** A header block of an object's, once its pax records are read. */
  predicate IsFileOf(h: Option<Block>, e: Entry) {
    h.Some? && h.value.kind == FILE_KIND && h.value.mtime == Kept(e.mtime)
    && h.value.size == if e.size < USTAR_MAX then e.size else USTAR_MAX
  }

  predicate IsPaxOf(h: Option<Block>, pax: Blob) {
    h.Some? && h.value.kind == PAX_KIND && h.value.size == |pax|
  }

  lemma FileReads(read: Header, file: Blob, rest: Blob, e: Entry, count: nat)
    requires Writable(e) && |file| == BLOCK && IsFileOf(read(file), e) && file <= rest
    ensures Next(read, rest, Pairs(e), count) == Some((AnObject(AsRead(e)), BLOCK))
  {
    assert rest[..BLOCK] == file;
    OfFileReads(e, rest, read(file).value, count);
  }

  /** The first block, the records after it, and the block after those. */
  predicate Laid(input: Blob, head: Blob, pax: Blob, after: nat, file: Blob) {
    && BLOCK + |pax| <= after <= |input|
    && input[..BLOCK] == head && input[BLOCK..BLOCK + |pax|] == pax && file <= input[after..]
  }

  lemma LaidOut(head: Blob, pax: Blob, pad: Blob, file: Blob)
    requires |head| == BLOCK
    ensures forall input: Blob | head + pax + pad + file <= input :: Laid(input, head, pax, |head + pax + pad|, file)
  {
    var start, after := head + pax + pad + file, |head + pax + pad|;
    forall input: Blob | start <= input ensures Laid(input, head, pax, after, file) {
      assert input[..|start|] == start;
      assert start[..BLOCK] == head && start[BLOCK..BLOCK + |pax|] == pax && start[after..] == file;
      assert input[BLOCK..BLOCK + |pax|] == start[BLOCK..BLOCK + |pax|];
    }
  }

  lemma PaxThen(read: Header, input: Blob, head: Blob, pax: Blob, after: nat, rest: Blob, count: nat)
    requires |head| == BLOCK && IsPaxOf(read(head), pax) && after == BLOCK + |pax| + Padding(|pax|) <= |input|
    requires input[..BLOCK] == head && input[BLOCK..BLOCK + |pax|] == pax && input[after..] == rest
    ensures Next(read, input, [], count) == Further(AfterPax(read, pax, rest, count), after)
  {
    assert Next(read, input, [], count) == OfPax(read, input, |pax|, after, count);
  }

  lemma ThenItem(read: Header, pax: Blob, after: nat, rest: Blob, pairs: seq<(Blob, Blob)>, item: Item, count: nat)
    requires ParsePax(pax) == Some(pairs) && Next(read, rest, pairs, count) == Some((item, BLOCK))
    ensures Further(AfterPax(read, pax, rest, count), after) == Some((item, after + BLOCK))
  {
    assert AfterPax(read, pax, rest, count) == Next(read, rest, pairs, count);
  }

  lemma StartReads(read: Header, input: Blob, head: Blob, pax: Blob, after: nat, rest: Blob, pairs: seq<(Blob, Blob)>,
                   item: Item, count: nat)
    requires |head| == BLOCK && IsPaxOf(read(head), pax) && after == BLOCK + |pax| + Padding(|pax|) <= |input|
    requires input[..BLOCK] == head && input[BLOCK..BLOCK + |pax|] == pax && input[after..] == rest
    requires ParsePax(pax) == Some(pairs) && Next(read, rest, pairs, count) == Some((item, BLOCK))
    ensures Next(read, input, [], count) == Some((item, after + BLOCK))
  {
    ThenItem(read, pax, after, rest, pairs, item, count);
    PaxThen(read, input, head, pax, after, rest, count);
  }

  lemma PartsRead(read: Header, head: Blob, pax: Blob, after: nat, file: Blob, input: Blob, e: Entry, count: nat)
    requires Writable(e) && |head| == |file| == BLOCK && after == BLOCK + |pax| + Padding(|pax|)
    requires IsPaxOf(read(head), pax) && IsFileOf(read(file), e) && ParsePax(pax) == Some(Pairs(e))
    requires Laid(input, head, pax, after, file)
    ensures Next(read, input, [], count) == Some((AnObject(AsRead(e)), after + BLOCK))
  {
    FileReads(read, file, input[after..], e, count);
    StartReads(read, input, head, pax, after, input[after..], Pairs(e), AnObject(AsRead(e)), count);
  }

  lemma EntryStartIs(e: Entry) returns (head: Blob, pax: Blob, pad: Blob, file: Blob)
    requires Writable(e)
    ensures EntryStart(e) == head + pax + pad + file
    ensures |head| == |file| == BLOCK && |pad| == Padding(|pax|)
    ensures IsPaxOf(ReadBlock(head), pax) && IsFileOf(ReadBlock(file), e) && ParsePax(pax) == Some(Pairs(e))
  {
    pax := Pax(e);
    head, file := Ustar(PAX_NAME, |pax|, e.mtime, PAX_KIND), Ustar(e.path, e.size, e.mtime, FILE_KIND);
    pad := Zeros(Padding(|pax|));
    UstarReads(PAX_NAME, |pax|, e.mtime, PAX_KIND);
    UstarReads(e.path, e.size, e.mtime, FILE_KIND);
    PaxReads(e);
  }

  /** `start` says the item, whatever follows, and no less of it does. */
  ghost predicate Says(next: Reader, start: Blob, item: Item, count: nat) {
    && start != []
    && (forall input: Blob | start <= input :: next(input, count) == Some((item, |start|)))
    && (forall cut: nat | cut < |start| :: next(start[..cut], count) == None)
  }

  lemma TarNeedsItAll(start: Blob, item: Item, count: nat)
    requires start != [] && forall input: Blob | start <= input ::
              Next(ReadBlock, input, [], count) == Some((item, |start|))
    ensures Says(TarReader(), start, item, count)
  {
    assert Next(ReadBlock, start, [], count) == Some((item, |start|));
    forall cut: nat | cut < |start| ensures TarReader()(start[..cut], count) == None {
      NextNeedsThemAll(ReadBlock, start, [], count, cut);
    }
  }

  lemma PartsSay(read: Header, start: Blob, head: Blob, pax: Blob, after: nat, file: Blob, e: Entry, count: nat)
    requires Writable(e) && |head| == |file| == BLOCK && after == BLOCK + |pax| + Padding(|pax|) == |start| - BLOCK
    requires IsPaxOf(read(head), pax) && IsFileOf(read(file), e) && ParsePax(pax) == Some(Pairs(e))
    requires forall input: Blob | start <= input :: Laid(input, head, pax, after, file)
    ensures forall input: Blob | start <= input :: Next(read, input, [], count) == Some((AnObject(AsRead(e)), |start|))
  {
    forall input: Blob | start <= input ensures Next(read, input, [], count) == Some((AnObject(AsRead(e)), |start|)) {
      PartsRead(read, head, pax, after, file, input, e, count);
    }
  }

  lemma ObjectReads(e: Entry, count: nat)
    requires Writable(e)
    ensures Says(TarReader(), EntryStart(e), AnObject(AsRead(e)), count)
  {
    var head, pax, pad, file := EntryStartIs(e);
    LaidOut(head, pax, pad, file);
    PartsSay(ReadBlock, EntryStart(e), head, pax, |head + pax + pad|, file, e, count);
    TarNeedsItAll(EntryStart(e), AnObject(AsRead(e)), count);
  }

  // ---- The trailer -----------------------------------------------------------------

  lemma {:induction false} AllAscii(name: Blob)
    requires forall b | b in name :: b < 128
    ensures OnlyAscii(name) == name
  {
    if name != [] {
      assert name[0] in name && forall b | b in name[1..] :: b in name;
      AllAscii(name[1..]);
    }
  }

  lemma ShortIsWhole(name: Blob)
    requires (forall b | b in name :: b < 128) && 0 < |name| <= 99 && name[|name| - 1] != 0
    ensures TrimZeros(Short(name)) == name
  {
    AllAscii(name);
  }

  lemma {:induction false} WidthBelow(n: nat, k: nat)
    requires k > 0 && n < Power(10, k)
    ensures Width(n) <= k
  {
    if n >= 10 {
      assert k > 1 by { assert Power(10, 1) == 10 * Power(10, 0); }
      WidthBelow(n / 10, k - 1);
    }
  }

  /** A 64-bit count fits the 32 digits a reader takes. */
  lemma CountFits(count: nat)
    requires count < 0x1_0000_0000_0000_0000
    ensures Width(count) <= 20
  {
    assert Power(10, 5) == 100000;
    assert Power(10, 10) == 100000 * 100000 by { assert Power(10, 8) == 1000 * Power(10, 5); }
    assert Power(10, 15) == 100000 * Power(10, 10) by { assert Power(10, 13) == 1000 * Power(10, 10); }
    assert Power(10, 20) == 100000 * Power(10, 15) by { assert Power(10, 18) == 1000 * Power(10, 15); }
    WidthBelow(count, 20);
  }

  lemma TrailerThen(read: Header, h: Blob, digits: Blob, input: Blob, count: nat)
    requires |h| == BLOCK && read(h) == Some(Block(FILE_KIND, TRAILER, |digits|, 0)) && |digits| <= 32
    requires digits != [] && (forall b | b in digits :: Digit(b, 10)) && Number(digits, 10) == Some(count)
    requires |input| >= BLOCK + |digits| && input[..BLOCK] == h && input[BLOCK..BLOCK + |digits|] == digits
    ensures Next(read, input, [], count) == Some((TheEnd, BLOCK + |digits|))
  {
    TrimDigits(digits, 10);
  }

  lemma PartsEnd(h: Blob, digits: Blob, count: nat)
    requires |h| == BLOCK && ReadBlock(h) == Some(Block(FILE_KIND, TRAILER, |digits|, 0)) && |digits| <= 32
    requires digits != [] && (forall b | b in digits :: Digit(b, 10)) && Number(digits, 10) == Some(count)
    ensures Says(TarReader(), h + digits, TheEnd, count)
  {
    forall input: Blob | h + digits <= input ensures Next(ReadBlock, input, [], count) == Some((TheEnd, |h + digits|)) {
      assert input[..|h + digits|] == h + digits;
      assert input[..BLOCK] == h && input[BLOCK..BLOCK + |digits|] == digits;
      TrailerThen(ReadBlock, h, digits, input, count);
    }
    TarNeedsItAll(h + digits, TheEnd, count);
  }

  lemma TrailerReads(count: nat)
    requires count < 0x1_0000_0000_0000_0000
    ensures Says(TarReader(), TrailerStart(count), TheEnd, count)
  {
    TrailerBlock(count);
    CountEnds(Ustar(TRAILER, Width(count), 0, FILE_KIND), count);
  }

  lemma TrailerBlock(count: nat)
    requires count < 0x1_0000_0000_0000_0000
    ensures ReadBlock(Ustar(TRAILER, Width(count), 0, FILE_KIND)) == Some(Block(FILE_KIND, TRAILER, Width(count), 0))
  {
    CountFits(count);
    UstarReads(TRAILER, Width(count), 0, FILE_KIND);
    ShortIsWhole(TRAILER);
  }

  lemma CountEnds(h: Blob, count: nat)
    requires count < 0x1_0000_0000_0000_0000
    requires |h| == BLOCK && ReadBlock(h) == Some(Block(FILE_KIND, TRAILER, Width(count), 0))
    ensures Says(TarReader(), h + Decimal(count), TheEnd, count)
  {
    CountFits(count);
    ParseDecimal(count);
    NumberReads(Decimal(count), count, 10);
    PartsEnd(h, Decimal(count), count);
  }

  // ---- A chain of entries, whatever says them --------------------------------------

  /** Objects after what says them, and what ends them. */
  function Chain(starts: seq<Blob>, objects: seq<Object>, trailer: Blob): Blob
    requires |starts| == |objects|
  {
    if objects == [] then trailer
    else starts[0] + (Padded(objects[0].content) + Chain(starts[1..], objects[1..], trailer))
  }

  function Padded(content: Blob): Blob {
    content + Zeros(Padding(|content|))
  }

  ghost predicate Sayable(next: Reader, starts: seq<Blob>, objects: seq<Object>, trailer: Blob, count: nat) {
    && |starts| == |objects| && Says(next, trailer, TheEnd, count + |objects|)
    && forall i | 0 <= i < |objects| :: Says(next, starts[i], AnObject(EntryOf(objects[i])), count + i)
  }

  lemma SayableRest(next: Reader, starts: seq<Blob>, objects: seq<Object>, trailer: Blob, count: nat)
    requires Sayable(next, starts, objects, trailer, count) && objects != []
    ensures Says(next, starts[0], AnObject(EntryOf(objects[0])), count)
    ensures Sayable(next, starts[1..], objects[1..], trailer, count + 1)
  {
    assert Says(next, starts[0], AnObject(EntryOf(objects[0])), count + 0);
    forall i | 0 <= i < |objects[1..]|
      ensures Says(next, starts[1..][i], AnObject(EntryOf(objects[1..][i])), count + 1 + i)
    {
      assert Says(next, starts[i + 1], AnObject(EntryOf(objects[i + 1])), count + (i + 1));
    }
  }

  lemma ReadOf(next: Reader, input: Blob, n: nat, o: Object, count: nat)
    requires next(input, count) == Some((AnObject(EntryOf(o)), n)) && n > 0
    ensures ReadAll(next, input, count)
            == OfObject(next, input, EntryOf(o), n, n + |o.content|, n + |o.content| + Padding(|o.content|), count)
  {
  }

  /** Reading an object whose content and padding are all there. */
  lemma ReadOne(next: Reader, input: Blob, n: nat, o: Object, end: nat, after: nat, rest: Blob, count: nat)
    requires 0 < n <= end <= after == |input| - |rest|
    requires input[n..end] == o.content && input[after..] == rest
    ensures var others := ReadAll(next, rest, count + 1);
            OfObject(next, input, EntryOf(o), n, end, after, count) == Read([o] + others.objects, others.whole)
  {
  }

  lemma PaddedSlices(start: Blob, content: Blob, rest: Blob)
    ensures var input := start + (Padded(content) + rest);
            var after := |start| + |content| + Padding(|content|);
            && |input| == after + |rest| && input[|start|..|start| + |content|] == content && input[after..] == rest
  {
  }

  lemma StepReads(next: Reader, start: Blob, o: Object, rest: Blob, count: nat)
    requires Says(next, start, AnObject(EntryOf(o)), count)
    ensures var others := ReadAll(next, rest, count + 1);
            ReadAll(next, start + (Padded(o.content) + rest), count) == Read([o] + others.objects, others.whole)
  {
    var input, end := start + (Padded(o.content) + rest), |start| + |o.content|;
    PaddedSlices(start, o.content, rest);
    ReadOf(next, input, |start|, o, count);
    ReadOne(next, input, |start|, o, end, end + Padding(|o.content|), rest, count);
  }

  lemma {:induction false} ChainReadsBack(next: Reader, starts: seq<Blob>, objects: seq<Object>, trailer: Blob,
                                          count: nat, more: Blob)
    requires Sayable(next, starts, objects, trailer, count)
    ensures ReadAll(next, Chain(starts, objects, trailer) + more, count) == Read(objects, true)
    decreases |objects|
  {
    if objects != [] {
      var start, o, rest := starts[0], objects[0], Chain(starts[1..], objects[1..], trailer);
      SayableRest(next, starts, objects, trailer, count);
      ChainReadsBack(next, starts[1..], objects[1..], trailer, count + 1, more);
      Regrouped(Padded(o.content), rest, more);
      Regrouped(start, Padded(o.content) + rest, more);
      StepReads(next, start, o, rest + more, count);
    }
  }

  /** The cut falls in the content or in its padding. */
  lemma CutInside(next: Reader, input: Blob, n: nat, o: Object, count: nat)
    requires next(input, count) == Some((AnObject(EntryOf(o)), n)) && 0 < n
    requires |input| < n + |o.content| + Padding(|o.content|)
    requires |input| >= n + |o.content| ==> input[n..n + |o.content|] == o.content
    ensures ReadAll(next, input, count) in {Read([], false), Read([o], false)}
  {
    ReadOf(next, input, n, o, count);
  }

  lemma CutSlices(start: Blob, content: Blob, rest: Blob, cut: nat)
    requires |start| <= cut <= |start + (Padded(content) + rest)|
    ensures var input := (start + (Padded(content) + rest))[..cut];
            var after := |start| + |content| + Padding(|content|);
            && input[..|start|] == start
            && (cut >= |start| + |content| ==> input[|start|..|start| + |content|] == content)
            && (cut >= after ==> input[after..] == rest[..cut - after])
  {
  }

  lemma CutStillSays(next: Reader, start: Blob, item: Item, tail: Blob, count: nat, cut: nat)
    requires Says(next, start, item, count) && cut <= |start + tail|
    ensures next((start + tail)[..cut], count) == if cut < |start| then None else Some((item, |start|))
  {
    if cut < |start| {
      assert (start + tail)[..cut] == start[..cut];
    } else {
      assert start <= (start + tail)[..cut];
    }
  }

  /** The cut falls in what says an object, in the object or its padding. */
  lemma StepCut(next: Reader, start: Blob, o: Object, rest: Blob, count: nat, cut: nat)
    requires Says(next, start, AnObject(EntryOf(o)), count) && cut <= |start + (Padded(o.content) + rest)|
    requires cut < |start| + |o.content| + Padding(|o.content|)
    ensures ReadAll(next, (start + (Padded(o.content) + rest))[..cut], count) in {Read([], false), Read([o], false)}
  {
    CutStillSays(next, start, AnObject(EntryOf(o)), Padded(o.content) + rest, count, cut);
    if cut >= |start| {
      CutSlices(start, o.content, rest, cut);
      CutInside(next, (start + (Padded(o.content) + rest))[..cut], |start|, o, count);
    }
  }

  /** Or after them. */
  lemma StepPassed(next: Reader, start: Blob, o: Object, rest: Blob, count: nat, cut: nat, after: nat)
    requires Says(next, start, AnObject(EntryOf(o)), count)
    requires after == |start + Padded(o.content)| <= cut <= after + |rest|
    ensures var others := ReadAll(next, rest[..cut - after], count + 1);
            ReadAll(next, (start + (Padded(o.content) + rest))[..cut], count)
            == Read([o] + others.objects, others.whole)
  {
    assert (start + (Padded(o.content) + rest))[..cut] == start + (Padded(o.content) + rest[..cut - after]);
    StepReads(next, start, o, rest[..cut - after], count);
  }

  lemma {:induction false} ChainCutShort(next: Reader, starts: seq<Blob>, objects: seq<Object>, trailer: Blob,
                                         count: nat, cut: nat)
    requires Sayable(next, starts, objects, trailer, count) && cut < |Chain(starts, objects, trailer)|
    ensures var r := ReadAll(next, Chain(starts, objects, trailer)[..cut], count); !r.whole && r.objects <= objects
    decreases |objects|
  {
    if objects == [] {
      assert next(trailer[..cut], count) == None;
    } else {
      var start, o, rest := starts[0], objects[0], Chain(starts[1..], objects[1..], trailer);
      var after := |start| + |o.content| + Padding(|o.content|);
      SayableRest(next, starts, objects, trailer, count);
      if cut < after {
        StepCut(next, start, o, rest, count, cut);
      } else {
        StepPassed(next, start, o, rest, count, cut, after);
        ChainCutShort(next, starts[1..], objects[1..], trailer, count + 1, cut - after);
      }
    }
  }

  // ---- Archives --------------------------------------------------------------------

  function StartsOf(objects: seq<Object>): (starts: seq<Blob>)
    ensures |starts| == |objects|
  {
    seq(|objects|, i requires 0 <= i < |objects| => EntryStart(EntryOf(objects[i])))
  }

  lemma OneThenRest(start: Blob, content: Blob, rest: Blob, trailer: Blob)
    ensures start + content + Zeros(Padding(|content|)) + rest + trailer == start + (Padded(content) + (rest + trailer))
  {
    Regrouped(start, content, Zeros(Padding(|content|)));
    Regrouped(start + Padded(content), rest, trailer);
    Regrouped(start, Padded(content), rest + trailer);
  }

  lemma {:induction false} EntriesAreAChain(objects: seq<Object>, trailer: Blob)
    ensures EntriesBytes(EntryStart, objects) + trailer == Chain(StartsOf(objects), AllAsRead(objects), trailer)
    decreases |objects|
  {
    if objects == [] {
      assert [] + trailer == trailer;
    } else {
      var o := objects[0];
      EntriesAreAChain(objects[1..], trailer);
      TailsOf(objects);
      OneThenRest(EntryStart(EntryOf(o)), o.content, EntriesBytes(EntryStart, objects[1..]), trailer);
    }
  }

  lemma TailsOf(objects: seq<Object>)
    requires objects != []
    ensures StartsOf(objects)[1..] == StartsOf(objects[1..]) && AllAsRead(objects)[1..] == AllAsRead(objects[1..])
    ensures StartsOf(objects)[0] == EntryStart(EntryOf(objects[0]))
    ensures AllAsRead(objects)[0].content == objects[0].content
  {
  }

  lemma ArchiveIsSayable(objects: seq<Object>)
    requires (forall o | o in objects :: Writable(EntryOf(o))) && |objects| < 0x1_0000_0000_0000_0000
    ensures Sayable(TarReader(), StartsOf(objects), AllAsRead(objects), TrailerStart(|objects|), 0)
  {
    TrailerReads(|objects|);
    forall i | 0 <= i < |objects|
      ensures Says(TarReader(), StartsOf(objects)[i], AnObject(EntryOf(AllAsRead(objects)[i])), 0 + i)
    {
      assert objects[i] in objects && EntryOf(AllAsRead(objects)[i]) == AsRead(EntryOf(objects[i]));
      ObjectReads(EntryOf(objects[i]), i);
    }
  }

  lemma ChainCutAnywhere(next: Reader, starts: seq<Blob>, objects: seq<Object>, trailer: Blob, end: Blob, cut: nat)
    requires Sayable(next, starts, objects, trailer, 0)
    requires cut <= |Chain(starts, objects, trailer) + end|
    ensures var r := ReadAll(next, (Chain(starts, objects, trailer) + end)[..cut], 0);
            && (r.whole <==> cut >= |Chain(starts, objects, trailer)|)
            && (if r.whole then r.objects == objects else r.objects <= objects)
  {
    var chain := Chain(starts, objects, trailer);
    if cut < |chain| {
      assert (chain + end)[..cut] == chain[..cut];
      ChainCutShort(next, starts, objects, trailer, 0, cut);
    } else {
      assert (chain + end)[..cut] == chain + end[..cut - |chain|];
      ChainReadsBack(next, starts, objects, trailer, 0, end[..cut - |chain|]);
    }
  }

  /** An archive is read whole exactly when nothing of its trailer's count is cut off, and is
      then the objects that were written — keys, contents, headers, and times but for what no
      header has room for. Cut anywhere before, what is read of it is some of the first objects,
      each complete. */
  lemma WholeIffUncut(objects: seq<Object>, cut: nat)
    requires (forall o | o in objects :: Writable(EntryOf(o))) && |objects| < 0x1_0000_0000_0000_0000
    requires cut <= |Archive(objects)|
    ensures var r := ReadAll(TarReader(), Archive(objects)[..cut], 0);
            && (r.whole <==> cut >= |EntriesBytes(EntryStart, objects)| + BLOCK + Width(|objects|))
            && (if r.whole then r.objects == AllAsRead(objects) else r.objects <= AllAsRead(objects))
  {
    var trailer, pad, zeros := TrailerStart(|objects|), Zeros(Padding(Width(|objects|))), Zeros(2 * BLOCK);
    ArchiveIsSayable(objects);
    EntriesAreAChain(objects, trailer);
    Regrouped(EntriesBytes(EntryStart, objects), trailer, pad + zeros);
    Regrouped(trailer, pad, zeros);
    ChainCutAnywhere(TarReader(), StartsOf(objects), AllAsRead(objects), trailer, pad + zeros, cut);
  }
}
