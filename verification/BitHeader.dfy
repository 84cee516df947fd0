/** The metadata header of a `.bit` file and the comparison of its payload with a
    `.bit.bin` (`hw/scripts/pre_deploy_check.py`).

    Field values are bytes: the script decodes them as UTF-8 with replacement, which
    leaves the NUL padding and the `;` it looks for where they are. */
module BitHeader {
  import opened Prelude

  type Byte = b: nat | b < 256

  datatype Error = TooSmall | BadMagic | BadSubHeader | BadTag | ShortRead | NoLength

  datatype Header = Header(design: seq<Byte>, part: seq<Byte>, date: seq<Byte>, time: seq<Byte>,
                           payloadLen: nat, headerLen: nat)

  const BIT_MAGIC: seq<Byte> := [0x0f, 0xf0, 0x0f, 0xf0, 0x0f, 0xf0, 0x0f, 0xf0, 0x00]
  const READ_SIZE: nat := 512
  const FIELDS: nat := 4

  const TAG_A: Byte := 0x61
  const TAG_B: Byte := 0x62
  const TAG_C: Byte := 0x63
  const TAG_D: Byte := 0x64
  const TAG_E: Byte := 0x65
  const SEMICOLON: Byte := 0x3b

  predicate IsTag(b: Byte) {
    TAG_A <= b <= TAG_D
  }

  // ----- reading

  /** Python's `data[i:i + n]`. */
  function Sub(data: seq<Byte>, i: nat, n: nat): seq<Byte> {
    if i >= |data| then [] else if i + n >= |data| then data[i..] else data[i..i + n]
  }

  /** `struct.unpack` of a big-endian number of n bytes; None is its error. */
  function Unpack(bytes: seq<Byte>, n: nat): Option<nat> {
    if |bytes| == n then Some(Number(bytes)) else None
  }

  function Number(bytes: seq<Byte>): nat {
    if bytes == [] then 0 else 256 * Number(bytes[..|bytes| - 1]) + bytes[|bytes| - 1]
  }

  /** `rstrip(b"\x00")` */
  function RStrip(s: seq<Byte>): (t: seq<Byte>)
    ensures |t| <= |s|
  {
    if s != [] && s[|s| - 1] == 0 then RStrip(s[..|s| - 1]) else s
  }

  /** One tagged field: its tag, its value, and where the next one starts. */
  function ParseField(data: seq<Byte>, i: nat): Result<(Byte, seq<Byte>, nat), Error> {
    var tag := Sub(data, i, 1);
    if tag == [] || !IsTag(tag[0]) then Err(BadTag)
    else
      match Unpack(Sub(data, i + 1, 2), 2)
      case None => Err(ShortRead)
      case Some(length) => Ok((tag[0], RStrip(Sub(data, i + 3, length)), i + 3 + length))
  }

  /** The field loop, n fields still to read. */
  function ParseFields(data: seq<Byte>, i: nat, n: nat, fields: map<Byte, seq<Byte>>)
    : (r: Result<(map<Byte, seq<Byte>>, nat), Error>)
    ensures r.Ok? ==> r.value.1 >= i
    decreases n
  {
    if n == 0 then Ok((fields, i))
    else
      var (tag, value, next) :- ParseField(data, i);
      ParseFields(data, next, n - 1, fields[tag := value])
  }

  function Get(fields: map<Byte, seq<Byte>>, tag: Byte): seq<Byte> {
    if tag in fields then fields[tag] else []
  }

  /** `split(";", 1)[0]` */
  function BeforeSemicolon(s: seq<Byte>): seq<Byte> {
    if s == [] || s[0] == SEMICOLON then [] else [s[0]] + BeforeSemicolon(s[1..])
  }

  /** The length field and the record. */
  function ParseLength(data: seq<Byte>, i: nat, fields: map<Byte, seq<Byte>>): Result<Header, Error> {
    if Sub(data, i, 1) != [TAG_E] then Err(NoLength)
    else
      match Unpack(Sub(data, i + 1, 4), 4)
      case None => Err(ShortRead)
      case Some(length) =>
        Ok(Header(BeforeSemicolon(Get(fields, TAG_A)), Get(fields, TAG_B), Get(fields, TAG_C), Get(fields, TAG_D),
                  length, i + 5))
  }

  function Parse(file: seq<Byte>): Result<Header, Error> {
    var data := Sub(file, 0, READ_SIZE);
    if |data| < 16 then Err(TooSmall)
    else if Number(data[0..2]) != 9 || data[2..11] != BIT_MAGIC then Err(BadMagic)
    else if Number(data[11..13]) != 1 then Err(BadSubHeader)
    else
      var (fields, i) :- ParseFields(data, 13, FIELDS, map[]);
      ParseLength(data, i, fields)
  }

  /** `parse_bit_header` */
  method ParseBitHeader(file: seq<Byte>) returns (r: Result<Header, Error>)
    ensures r == Parse(file)
  {
    var data := Sub(file, 0, READ_SIZE);
    if |data| < 16 {
      return Err(TooSmall);
    }
    if Number(data[0..2]) != 9 || data[2..11] != BIT_MAGIC {
      return Err(BadMagic);
    }
    if Number(data[11..13]) != 1 {
      return Err(BadSubHeader);
    }
    var fields := ReadFields(data);
    if fields.Err? {
      return Err(fields.error);
    }
    return ParseLength(data, fields.value.1, fields.value.0);
  }

  /** The field loop of `parse_bit_header`. */
  method ReadFields(data: seq<Byte>) returns (r: Result<(map<Byte, seq<Byte>>, nat), Error>)
    ensures r == ParseFields(data, 13, FIELDS, map[])
  {
    var i := 13;
    var fields: map<Byte, seq<Byte>> := map[];
    var left := FIELDS;
    ghost var whole := ParseFields(data, i, left, fields);
    while left > 0
      invariant whole == ParseFields(data, i, left, fields)
    {
      var field := ParseField(data, i);
      if field.Err? {
        return Err(field.error);
      }
      var tag, value, next, more := field.value.0, field.value.1, field.value.2, left - 1;
      OneField(data, i, left, more, fields, tag, value, next);
      fields, i, left := fields[tag := value], next, more;
    }
    return Ok((fields, i));
  }

  lemma OneField(data: seq<Byte>, i: nat, n: nat, left: nat, fields: map<Byte, seq<Byte>>,
                 tag: Byte, value: seq<Byte>, next: nat)
    requires n == left + 1 && ParseField(data, i) == Ok((tag, value, next))
    ensures ParseFields(data, i, n, fields) == ParseFields(data, next, left, fields[tag := value])
  {
  }

  // ----- printing

  /** A field with its padding: that many NULs after the value. */
  datatype Field = Field(tag: Byte, value: seq<Byte>, padding: nat)

  function Zeros(n: nat): (s: seq<Byte>)
    ensures |s| == n
  {
    seq(n, _ => 0)
  }

  /** A number as n big-endian bytes. */
  function Bytes(v: nat, n: nat): (s: seq<Byte>)
    ensures |s| == n
    decreases n
  {
    if n == 0 then [] else Bytes(v / 256, n - 1) + [v % 256]
  }

  function PrintField(f: Field): (s: seq<Byte>)
    ensures |s| == 3 + |f.value| + f.padding
  {
    [f.tag] + Bytes(|f.value| + f.padding, 2) + (f.value + Zeros(f.padding))
  }

  function PrintFields(fs: seq<Field>): seq<Byte> {
    if fs == [] then [] else PrintField(fs[0]) + PrintFields(fs[1..])
  }

  function Prologue(): (s: seq<Byte>)
    ensures |s| == 13
  {
    Bytes(9, 2) + BIT_MAGIC + Bytes(1, 2)
  }

  function Print(fs: seq<Field>, payloadLen: nat): seq<Byte> {
    Prologue() + PrintFields(fs) + ([TAG_E] + Bytes(payloadLen, 4))
  }

  ghost predicate Printable(f: Field) {
    && IsTag(f.tag) && |f.value| + f.padding < 0x1_0000
    && (f.value != [] ==> f.value[|f.value| - 1] != 0)
  }

  ghost predicate AllPrintable(fs: seq<Field>) {
    forall k :: 0 <= k < |fs| ==> Printable(fs[k])
  }

  /** The value of the last field with this tag, or nothing. */
  function ValueOf(fs: seq<Field>, tag: Byte): seq<Byte> {
    ValueAmong(fs, tag, [])
  }

  function ValueAmong(fs: seq<Field>, tag: Byte, otherwise: seq<Byte>): seq<Byte> {
    if fs == [] then otherwise
    else ValueAmong(fs[1..], tag, if fs[0].tag == tag then fs[0].value else otherwise)
  }

  function HeaderOf(fs: seq<Field>, payloadLen: nat): Header {
    Header(BeforeSemicolon(ValueOf(fs, TAG_A)), ValueOf(fs, TAG_B), ValueOf(fs, TAG_C), ValueOf(fs, TAG_D),
           payloadLen, |Print(fs, payloadLen)|)
  }

  // ----- numbers and padding

  function Pow256(n: nat): nat {
    if n == 0 then 1 else 256 * Pow256(n - 1)
  }

  lemma {:induction false} BytesRead(v: nat, n: nat)
    requires v < Pow256(n)
    ensures Number(Bytes(v, n)) == v
    decreases n
  {
    if n > 0 {
      BytesRead(v / 256, n - 1);
      assert Bytes(v, n)[..n - 1] == Bytes(v / 256, n - 1);
    }
  }

  lemma NumberNext(bytes: seq<Byte>, b: Byte)
    ensures Number(bytes + [b]) == 256 * Number(bytes) + b
  {
    assert (bytes + [b])[..|bytes|] == bytes;
  }

  /** Numbers are read with their most significant byte first. */
  lemma BigEndian(a: Byte, b: Byte, c: Byte, d: Byte)
    ensures Number([a, b]) == 0x100 * a + b
    ensures Number([a, b, c, d]) == 0x100_0000 * a + 0x1_0000 * b + 0x100 * c + d
  {
    NumberNext([], a);
    NumberNext([a], b);
    NumberNext([a, b], c);
    NumberNext([a, b, c], d);
    assert [] + [a] == [a] && [a] + [b] == [a, b] && [a, b] + [c] == [a, b, c] && [a, b, c] + [d] == [a, b, c, d];
  }

  lemma {:induction false} NumberWritten(bytes: seq<Byte>)
    ensures Number(bytes) < Pow256(|bytes|) && Bytes(Number(bytes), |bytes|) == bytes
  {
    if bytes != [] { NumberWritten(bytes[..|bytes| - 1]); }
  }

  lemma {:induction false} RStripPadded(value: seq<Byte>, n: nat)
    requires value != [] ==> value[|value| - 1] != 0
    ensures RStrip(value + Zeros(n)) == value
  {
    if n == 0 {
      assert value + Zeros(0) == value;
    } else {
      assert (value + Zeros(n))[..|value| + n - 1] == value + Zeros(n - 1);
      RStripPadded(value, n - 1);
    }
  }

  lemma {:induction false} PaddedRStrip(s: seq<Byte>)
    ensures var t := RStrip(s);
      s == t + Zeros(|s| - |t|) && (t != [] ==> t[|t| - 1] != 0)
  {
    if s != [] && s[|s| - 1] == 0 {
      PaddedRStrip(s[..|s| - 1]);
      var t := RStrip(s);
      assert s == s[..|s| - 1] + [0];
      assert Zeros(|s| - |t|) == Zeros(|s| - 1 - |t|) + [0];
    } else {
      assert s == s + Zeros(0);
    }
  }

  // ----- what is printed parses

  lemma Nested(s: seq<Byte>, i: nat, j: nat, a: nat, b: nat)
    requires i <= j <= |s| && a <= b <= j - i
    ensures s[i..j][a..b] == s[i + a..i + b]
  {
    forall k: nat | k < b - a ensures s[i..j][a..b][k] == s[i + a..i + b][k] {
      assert s[i..j][a + k] == s[i + (a + k)];
    }
  }

  /** Within the data a slice has the length asked for. */
  lemma SubOf(data: seq<Byte>, i: nat, n: nat)
    ensures i + n <= |data| ==> Sub(data, i, n) == data[i..i + n]
    ensures n > 0 && |Sub(data, i, n)| == n ==> i + n <= |data|
  {
  }

  lemma SubWithin(data: seq<Byte>, i: nat, piece: seq<Byte>, a: nat, n: nat)
    requires i + |piece| <= |data| && data[i..i + |piece|] == piece && a + n <= |piece|
    ensures Sub(data, i + a, n) == piece[a..a + n]
  {
    SubOf(data, i + a, n);
    Nested(data, i, i + |piece|, a, a + n);
  }

  lemma PieceParts(f: Field, length: nat)
    requires length == |f.value| + f.padding
    ensures var piece := PrintField(f);
      piece[0..1] == [f.tag] && piece[1..3] == Bytes(length, 2) && piece[3..3 + length] == f.value + Zeros(f.padding)
  {
  }

  lemma FieldReads(data: seq<Byte>, i: nat, f: Field, next: nat)
    requires Printable(f) && next == i + |PrintField(f)| <= |data| && data[i..next] == PrintField(f)
    ensures ParseField(data, i) == Ok((f.tag, f.value, next))
  {
    var length := |f.value| + f.padding;
    FieldBytes(data, i, f, next, length);
    LengthBytes(length);
    RStripPadded(f.value, f.padding);
    ParsedParts(data, i, f.tag, Bytes(length, 2), f.value + Zeros(f.padding), length);
  }

  /** The three parts of a field where the parser looks for them. */
  lemma FieldBytes(data: seq<Byte>, i: nat, f: Field, next: nat, length: nat)
    requires next == i + |PrintField(f)| <= |data| && data[i..next] == PrintField(f) && length == |f.value| + f.padding
    ensures Sub(data, i, 1) == [f.tag] && Sub(data, i + 1, 2) == Bytes(length, 2)
    ensures Sub(data, i + 3, length) == f.value + Zeros(f.padding)
  {
    var piece := PrintField(f);
    PieceParts(f, length);
    SubWithin(data, i, piece, 0, 1);
    SubWithin(data, i, piece, 1, 2);
    SubWithin(data, i, piece, 3, length);
  }

  lemma LengthBytes(length: nat)
    requires length < 0x1_0000
    ensures Number(Bytes(length, 2)) == length
  {
    assert Pow256(2) == 0x1_0000;
    BytesRead(length, 2);
  }

  lemma ParsedParts(data: seq<Byte>, i: nat, tag: Byte, bytes: seq<Byte>, raw: seq<Byte>, length: nat)
    requires Sub(data, i, 1) == [tag] && IsTag(tag)
    requires Sub(data, i + 1, 2) == bytes && |bytes| == 2 && Number(bytes) == length
    requires Sub(data, i + 3, length) == raw
    ensures ParseField(data, i) == Ok((tag, RStrip(raw), i + 3 + length))
  {
  }

  /** The dictionary after the fields, the last of equal tags winning. */
  function Updated(m: map<Byte, seq<Byte>>, fs: seq<Field>): map<Byte, seq<Byte>>
    decreases |fs|
  {
    if fs == [] then m else Updated(m[fs[0].tag := fs[0].value], fs[1..])
  }

  lemma {:induction false} UpdatedValue(m: map<Byte, seq<Byte>>, fs: seq<Field>, tag: Byte)
    ensures Get(Updated(m, fs), tag) == ValueAmong(fs, tag, Get(m, tag))
    decreases |fs|
  {
    if fs != [] { UpdatedValue(m[fs[0].tag := fs[0].value], fs[1..], tag); }
  }

  lemma SplitAt(data: seq<Byte>, i: nat, next: nat, end: nat, a: seq<Byte>, b: seq<Byte>)
    requires end <= |data| && next == i + |a| && end == next + |b| && data[i..end] == a + b
    ensures data[i..next] == a && data[next..end] == b
  {
    Nested(data, i, end, 0, |a|);
    Nested(data, i, end, |a|, |a| + |b|);
  }

  lemma {:induction false} FieldsRead(data: seq<Byte>, i: nat, fs: seq<Field>, m: map<Byte, seq<Byte>>, end: nat)
    requires AllPrintable(fs) && end == i + |PrintFields(fs)| <= |data| && data[i..end] == PrintFields(fs)
    ensures ParseFields(data, i, |fs|, m) == Ok((Updated(m, fs), end))
    decreases |fs|
  {
    if fs != [] {
      var f, more := fs[0], fs[1..];
      var next := i + |PrintField(f)|;
      SplitAt(data, i, next, end, PrintField(f), PrintFields(more));
      FieldReads(data, i, f, next);
      OneField(data, i, |fs|, |more|, m, f.tag, f.value, next);
      FieldsRead(data, next, more, m[f.tag := f.value], end);
    }
  }

  lemma LengthReads(data: seq<Byte>, i: nat, payloadLen: nat, fields: map<Byte, seq<Byte>>)
    requires payloadLen < 0x1_0000_0000 && i + 5 <= |data| && data[i..i + 5] == [TAG_E] + Bytes(payloadLen, 4)
    ensures ParseLength(data, i, fields)
         == Ok(Header(BeforeSemicolon(Get(fields, TAG_A)), Get(fields, TAG_B), Get(fields, TAG_C), Get(fields, TAG_D),
                      payloadLen, i + 5))
  {
    var piece := [TAG_E] + Bytes(payloadLen, 4);
    SubWithin(data, i, piece, 0, 1);
    SubWithin(data, i, piece, 1, 4);
    assert piece[0..1] == [TAG_E] && piece[1..5] == Bytes(payloadLen, 4);
    assert Pow256(4) == 0x1_0000_0000;
    BytesRead(payloadLen, 4);
  }

  /** The magic is where the parser looks for it. */
  ghost predicate Opens(data: seq<Byte>) {
    |data| >= 13 && Number(data[0..2]) == 9 && data[2..11] == BIT_MAGIC && Number(data[11..13]) == 1
  }

  lemma PrologueParts()
    ensures Prologue()[0..2] == Bytes(9, 2) && Prologue()[2..11] == BIT_MAGIC && Prologue()[11..13] == Bytes(1, 2)
  {
  }

  lemma PrologueOpens(data: seq<Byte>)
    requires Prologue() <= data
    ensures Opens(data)
  {
    PrologueParts();
    var text := Prologue();
    assert data[0..2] == text[0..2] && data[2..11] == text[2..11] && data[11..13] == text[11..13];
    BytesRead(9, 2);
    BytesRead(1, 2);
  }

  lemma OpensPrologue(data: seq<Byte>)
    requires Opens(data)
    ensures data[..13] == Prologue()
  {
    NumberWritten(data[0..2]);
    NumberWritten(data[11..13]);
    assert data[..13] == data[0..2] + data[2..11] + data[11..13];
  }

  /** A printed header, at the start of what was read. */
  lemma DataParses(data: seq<Byte>, fs: seq<Field>, n: nat, payloadLen: nat, end: nat)
    requires n == |fs| && AllPrintable(fs) && payloadLen < 0x1_0000_0000
    requires Print(fs, payloadLen) <= data && end == 13 + |PrintFields(fs)|
    ensures Opens(data) && ParseFields(data, 13, n, map[]) == Ok((Updated(map[], fs), end))
    ensures ParseLength(data, end, Updated(map[], fs)) == Ok(HeaderOf(fs, payloadLen))
  {
    TextParts(data, fs, payloadLen, end);
    PrologueOpens(data);
    FieldsRead(data, 13, fs, map[], end);
    RecordReads(data, fs, payloadLen, end, Updated(map[], fs));
  }

  lemma RecordReads(data: seq<Byte>, fs: seq<Field>, payloadLen: nat, end: nat, fields: map<Byte, seq<Byte>>)
    requires payloadLen < 0x1_0000_0000 && end + 5 == |Print(fs, payloadLen)| <= |data|
    requires data[end..end + 5] == [TAG_E] + Bytes(payloadLen, 4) && fields == Updated(map[], fs)
    ensures ParseLength(data, end, fields) == Ok(HeaderOf(fs, payloadLen))
  {
    LengthReads(data, end, payloadLen, fields);
    UpdatedValue(map[], fs, TAG_A);
    UpdatedValue(map[], fs, TAG_B);
    UpdatedValue(map[], fs, TAG_C);
    UpdatedValue(map[], fs, TAG_D);
  }

  /** The three parts of a printed header. */
  lemma TextParts(data: seq<Byte>, fs: seq<Field>, payloadLen: nat, end: nat)
    requires Print(fs, payloadLen) <= data && end == 13 + |PrintFields(fs)|
    ensures Prologue() <= data && end + 5 == |Print(fs, payloadLen)|
    ensures data[13..end] == PrintFields(fs) && data[end..end + 5] == [TAG_E] + Bytes(payloadLen, 4)
  {
    var text := Print(fs, payloadLen);
    assert data[..end + 5] == text;
    assert data[13..end] == text[13..end] && data[end..end + 5] == text[end..end + 5];
  }

  lemma {:induction false} PrintedLength(fs: seq<Field>)
    ensures |PrintFields(fs)| >= 3 * |fs|
  {
    if fs != [] { PrintedLength(fs[1..]); }
  }

  lemma PrefixRead(text: seq<Byte>, rest: seq<Byte>)
    requires |text| <= READ_SIZE
    ensures text <= Sub(text + rest, 0, READ_SIZE)
  {
  }

  /** Parsing a printed header of at most 512 bytes gives back the record, whatever the
      order of its four fields, their padding, and the bytes that follow; a tag that
      is repeated keeps its last value and one that is missing is empty.  The header
      length is the offset of the payload. */
  lemma ParsePrinted(fs: seq<Field>, payloadLen: nat, payload: seq<Byte>)
    requires |fs| == 4 && AllPrintable(fs) && payloadLen < 0x1_0000_0000
    requires |Print(fs, payloadLen)| <= READ_SIZE
    ensures Parse(Print(fs, payloadLen) + payload) == Ok(HeaderOf(fs, payloadLen))
    ensures (Print(fs, payloadLen) + payload)[HeaderOf(fs, payloadLen).headerLen..] == payload
  {
    var file := Print(fs, payloadLen) + payload;
    PrintedLength(fs);
    PrefixRead(Print(fs, payloadLen), payload);
    DataParses(Sub(file, 0, READ_SIZE), fs, FIELDS, payloadLen, 13 + |PrintFields(fs)|);
    ParseSucceeds(file, Sub(file, 0, READ_SIZE));
  }

  lemma {:induction false} NoneMatches(fs: seq<Field>, tag: Byte, otherwise: seq<Byte>)
    requires forall j :: 0 <= j < |fs| ==> fs[j].tag != tag
    ensures ValueAmong(fs, tag, otherwise) == otherwise
    decreases |fs|
  {
    if fs != [] { NoneMatches(fs[1..], tag, otherwise); }
  }

  lemma {:induction false} LastAmong(fs: seq<Field>, k: nat, otherwise: seq<Byte>)
    requires k < |fs| && forall j :: k < j < |fs| ==> fs[j].tag != fs[k].tag
    ensures ValueAmong(fs, fs[k].tag, otherwise) == fs[k].value
    decreases |fs|
  {
    var next := if fs[0].tag == fs[k].tag then fs[0].value else otherwise;
    if k == 0 { NoneMatches(fs[1..], fs[k].tag, next); } else { LastAmong(fs[1..], k - 1, next); }
  }

  /** A field keeps its value unless a later one repeats its tag; with one field of each
      tag, in any order, each keeps its own. */
  lemma LastWins(fs: seq<Field>, k: nat)
    requires k < |fs| && forall j :: k < j < |fs| ==> fs[j].tag != fs[k].tag
    ensures ValueOf(fs, fs[k].tag) == fs[k].value
  {
    LastAmong(fs, k, []);
  }

  /** A value without a `;` is kept whole, and no other value is. */
  lemma {:induction false} NoSemicolon(s: seq<Byte>)
    ensures BeforeSemicolon(s) == s <==> SEMICOLON !in s
  {
    if s == [] {
      assert BeforeSemicolon(s) == s;
    } else if s[0] == SEMICOLON {
      assert s[0] in s && BeforeSemicolon(s) != s;
    } else {
      NoSemicolon(s[1..]);
      SameTail(s, s[0], BeforeSemicolon(s[1..]));
      assert BeforeSemicolon(s) == s <==> BeforeSemicolon(s[1..]) == s[1..];
      assert SEMICOLON in s <==> SEMICOLON in s[1..];
    }
  }

  /** What stands before the first `;` is the design, whatever comes after it. */
  lemma {:induction false} DesignBefore(a: seq<Byte>, b: seq<Byte>)
    requires SEMICOLON !in a
    ensures BeforeSemicolon(a + [SEMICOLON] + b) == a
  {
    var s := a + [SEMICOLON] + b;
    if a != [] {
      assert s[1..] == a[1..] + [SEMICOLON] + b && s[0] == a[0];
      DesignBefore(a[1..], b);
    }
  }

  /** The record of a printed header, field by field: each field that no later one
      repeats appears under its letter, the design up to its first `;`. */
  lemma RecordIs(fs: seq<Field>, payloadLen: nat, payload: seq<Byte>, k: nat, name: seq<Byte>, rest: seq<Byte>)
    requires |fs| == 4 && AllPrintable(fs) && payloadLen < 0x1_0000_0000 && |Print(fs, payloadLen)| <= READ_SIZE
    requires k < |fs| && forall j :: k < j < |fs| ==> fs[j].tag != fs[k].tag
    requires fs[k].tag == 0x61 ==> SEMICOLON !in name && fs[k].value == name + [SEMICOLON] + rest
    ensures var r := Parse(Print(fs, payloadLen) + payload);
      && r.Ok? && r.value.payloadLen == payloadLen
      && (fs[k].tag == 0x61 ==> r.value.design == name)
      && (fs[k].tag == 0x62 ==> r.value.part == fs[k].value)
      && (fs[k].tag == 0x63 ==> r.value.date == fs[k].value)
      && (fs[k].tag == 0x64 ==> r.value.time == fs[k].value)
  {
    ParsePrinted(fs, payloadLen, payload);
    LastWins(fs, k);
    if fs[k].tag == 0x61 { DesignBefore(name, rest); }
  }

  /** A letter without a field leaves its part of the record empty. */
  lemma MissingIsEmpty(fs: seq<Field>, payloadLen: nat, payload: seq<Byte>, tag: Byte)
    requires |fs| == 4 && AllPrintable(fs) && payloadLen < 0x1_0000_0000 && |Print(fs, payloadLen)| <= READ_SIZE
    requires forall j :: 0 <= j < |fs| ==> fs[j].tag != tag
    ensures var r := Parse(Print(fs, payloadLen) + payload);
      && r.Ok?
      && (tag == 0x61 ==> r.value.design == []) && (tag == 0x62 ==> r.value.part == [])
      && (tag == 0x63 ==> r.value.date == []) && (tag == 0x64 ==> r.value.time == [])
  {
    ParsePrinted(fs, payloadLen, payload);
    NoneMatches(fs, tag, []);
  }

  lemma SameTail(s: seq<Byte>, b: Byte, rest: seq<Byte>)
    requires s != [] && s[0] == b
    ensures [b] + rest == s <==> rest == s[1..]
    ensures forall c :: c in s <==> c == b || c in s[1..]
  {
    assert s == [b] + s[1..];
    assert ([b] + rest)[1..] == rest;
  }

  lemma PairIs(data: seq<Byte>, i: nat, a: Byte, b: Byte)
    requires i + 2 <= |data|
    ensures Number(data[i..i + 2]) == 0x100 * a + b <==> data[i] == a && data[i + 1] == b
  {
    BigEndian(data[i], data[i + 1], 0, 0);
    assert data[i..i + 2] == [data[i], data[i + 1]];
  }

  /** The first check that fails decides the error: the size, the magic, the sub-header. */
  lemma OpeningErrors(file: seq<Byte>)
    ensures Parse(file) == Err(TooSmall) <==> |file| < 16
    ensures |file| >= 16 ==>
      var magic := file[0] == 0 && file[1] == 9 && file[2..11] == BIT_MAGIC;
      && (Parse(file) == Err(BadMagic) <==> !magic)
      && (Parse(file) == Err(BadSubHeader) <==> magic && !(file[11] == 0 && file[12] == 1))
  {
    var data := Sub(file, 0, READ_SIZE);
    FieldErrors(data, 13, FIELDS, map[]);
    if |file| >= 16 {
      OpeningIs(file, data);
    }
  }

  /** The two checks of the opening bytes. */
  lemma OpeningIs(file: seq<Byte>, data: seq<Byte>)
    requires |file| >= 16 && data == Sub(file, 0, READ_SIZE)
    ensures |data| >= 16 && data[2..11] == file[2..11]
    ensures Number(data[0..2]) == 9 <==> file[0] == 0 && file[1] == 9
    ensures Number(data[11..13]) == 1 <==> file[11] == 0 && file[12] == 1
  {
    PairIs(data, 0, 0, 9);
    PairIs(data, 11, 0, 1);
  }

  lemma {:induction false} FieldErrors(data: seq<Byte>, i: nat, n: nat, fields: map<Byte, seq<Byte>>)
    ensures ParseFields(data, i, n, fields).Err? ==>
      ParseFields(data, i, n, fields).error == BadTag || ParseFields(data, i, n, fields).error == ShortRead
    decreases n
  {
    if n > 0 && ParseField(data, i).Ok? {
      var (tag, value, next) := ParseField(data, i).value;
      FieldErrors(data, next, n - 1, fields[tag := value]);
    }
  }

  // ----- and nothing else parses

  lemma PieceIs(f: Field, length: seq<Byte>, raw: seq<Byte>)
    requires |length| == 2 && Number(length) == |raw| && f.value == RStrip(raw) && f.padding == |raw| - |f.value|
    ensures PrintField(f) == [f.tag] + length + raw && |raw| < 0x1_0000
    ensures f.value != [] ==> f.value[|f.value| - 1] != 0
  {
    PaddedRStrip(raw);
    NumberWritten(length);
    assert Pow256(2) == 0x1_0000;
  }

  lemma FieldParts(data: seq<Byte>, i: nat, tag: Byte, value: seq<Byte>, next: nat)
    requires ParseField(data, i) == Ok((tag, value, next)) && next <= |data|
    ensures i + 3 <= next && data[i] == tag && IsTag(tag)
    ensures Number(data[i + 1..i + 3]) == next - i - 3 && value == RStrip(data[i + 3..next])
  {
    SubOf(data, i, 1);
    SubOf(data, i + 1, 2);
    SubOf(data, i + 3, next - i - 3);
  }

  lemma FieldWritten(data: seq<Byte>, i: nat, tag: Byte, value: seq<Byte>, next: nat) returns (f: Field)
    requires ParseField(data, i) == Ok((tag, value, next)) && next <= |data|
    ensures Printable(f) && f.tag == tag && f.value == value
    ensures next == i + |PrintField(f)| && data[i..next] == PrintField(f)
  {
    FieldParts(data, i, tag, value, next);
    var raw := data[i + 3..next];
    f := Field(tag, value, |raw| - |value|);
    PieceIs(f, data[i + 1..i + 3], raw);
    ThreeParts(data, i, next);
  }

  lemma ThreeParts(data: seq<Byte>, i: nat, next: nat)
    requires i + 3 <= next <= |data|
    ensures data[i..next] == [data[i]] + data[i + 1..i + 3] + data[i + 3..next]
  {
  }

  lemma {:induction false} FieldsWritten(
      data: seq<Byte>, i: nat, n: nat, m: map<Byte, seq<Byte>>, fields: map<Byte, seq<Byte>>, end: nat)
    returns (fs: seq<Field>)
    requires ParseFields(data, i, n, m) == Ok((fields, end)) && end <= |data|
    ensures |fs| == n && AllPrintable(fs) && fields == Updated(m, fs)
    ensures end == i + |PrintFields(fs)| && data[i..end] == PrintFields(fs)
    decreases n
  {
    if n == 0 {
      fs := [];
    } else {
      var (tag, value, next) := ParseField(data, i).value;
      var left := n - 1;
      OneField(data, i, n, left, m, tag, value, next);
      var f := FieldWritten(data, i, tag, value, next);
      var more := FieldsWritten(data, next, left, m[tag := value], fields, end);
      fs := [f] + more;
      Prepended(f, more, fs, m);
      JoinedParts(data, i, next, end, PrintField(f), PrintFields(more));
    }
  }

  lemma JoinedParts(data: seq<Byte>, i: nat, next: nat, end: nat, a: seq<Byte>, b: seq<Byte>)
    requires i <= next <= end <= |data| && data[i..next] == a && data[next..end] == b
    ensures data[i..end] == a + b
  {
    Joined(data, i, next, end);
  }

  lemma Joined(s: seq<Byte>, i: nat, j: nat, k: nat)
    requires i <= j <= k <= |s|
    ensures s[i..k] == s[i..j] + s[j..k]
  {
  }

  lemma Prepended(f: Field, more: seq<Field>, fs: seq<Field>, m: map<Byte, seq<Byte>>)
    requires fs == [f] + more && Printable(f) && AllPrintable(more)
    ensures AllPrintable(fs) && PrintFields(fs) == PrintField(f) + PrintFields(more)
    ensures Updated(m, fs) == Updated(m[f.tag := f.value], more)
  {
    assert fs[1..] == more;
  }

  lemma LengthWritten(data: seq<Byte>, i: nat, fields: map<Byte, seq<Byte>>)
    requires ParseLength(data, i, fields).Ok?
    ensures var n := ParseLength(data, i, fields).value.payloadLen;
      n < 0x1_0000_0000 && i + 5 <= |data| && data[i..i + 5] == [TAG_E] + Bytes(n, 4)
  {
    SubOf(data, i, 1);
    SubOf(data, i + 1, 4);
    assert data[i..i + 1] == [data[i]];
    NumberWritten(data[i + 1..i + 5]);
    assert Pow256(4) == 0x1_0000_0000;
    assert data[i..i + 5] == [data[i]] + data[i + 1..i + 5];
  }

  lemma Assembled(data: seq<Byte>, fs: seq<Field>, payloadLen: nat, end: nat)
    requires 13 <= end && end + 5 <= |data| && data[..13] == Prologue() && data[13..end] == PrintFields(fs)
    requires data[end..end + 5] == [TAG_E] + Bytes(payloadLen, 4)
    ensures Print(fs, payloadLen) == data[..end + 5]
  {
    Joined(data, 0, 13, end);
    Joined(data, 0, end, end + 5);
    assert data[0..13] == data[..13] && data[0..end + 5] == data[..end + 5];
  }

  /** What a successful parse went through. */
  lemma ParseSucceeds(file: seq<Byte>, data: seq<Byte>)
    requires data == Sub(file, 0, READ_SIZE)
    ensures Parse(file).Ok? <==>
      |data| >= 16 && Opens(data) && ParseFields(data, 13, FIELDS, map[]).Ok? &&
      ParseLength(data, ParseFields(data, 13, FIELDS, map[]).value.1, ParseFields(data, 13, FIELDS, map[]).value.0).Ok?
    ensures Parse(file).Ok? ==>
      var (fields, end) := ParseFields(data, 13, FIELDS, map[]).value;
      Parse(file) == ParseLength(data, end, fields)
  {
  }

  /** Whatever parses is a printed header with some bytes after it. */
  lemma ParsedIsPrinted(file: seq<Byte>) returns (fs: seq<Field>, payloadLen: nat)
    requires Parse(file).Ok?
    ensures |fs| == 4 && AllPrintable(fs) && payloadLen < 0x1_0000_0000
    ensures |Print(fs, payloadLen)| <= READ_SIZE && Print(fs, payloadLen) <= file
    ensures Parse(file) == Ok(HeaderOf(fs, payloadLen))
  {
    var data := Sub(file, 0, READ_SIZE);
    ParseSucceeds(file, data);
    var (fields, end) := ParseFields(data, 13, FIELDS, map[]).value;
    LengthWritten(data, end, fields);
    payloadLen := ParseLength(data, end, fields).value.payloadLen;
    fs := FieldsWritten(data, 13, FIELDS, map[], fields, end);
    OpensPrologue(data);
    Assembled(data, fs, payloadLen, end);
    DataParses(data, fs, FIELDS, payloadLen, 13 + |PrintFields(fs)|);
  }

  // ----- the payload and the bit.bin

  function Reversed(s: seq<Byte>): (t: seq<Byte>)
    ensures |t| == |s|
  {
    if s == [] then [] else Reversed(s[1..]) + [s[0]]
  }

  /** Every four bytes reversed; a shorter rest is reversed too. */
  function Swap32(s: seq<Byte>): (t: seq<Byte>)
    ensures |t| == |s|
  {
    if |s| <= 4 then Reversed(s) else Reversed(s[..4]) + Swap32(s[4..])
  }

  lemma {:induction false} ReversedLast(s: seq<Byte>, b: Byte)
    ensures Reversed(s + [b]) == [b] + Reversed(s)
  {
    if s != [] {
      assert (s + [b])[1..] == s[1..] + [b];
      ReversedLast(s[1..], b);
    }
  }

  lemma {:induction false} ReversedTwice(s: seq<Byte>)
    ensures Reversed(Reversed(s)) == s
  {
    if s != [] {
      ReversedLast(Reversed(s[1..]), s[0]);
      ReversedTwice(s[1..]);
    }
  }

  /** The swap undoes itself, for payloads of every length. */
  lemma {:induction false} SwapTwice(s: seq<Byte>)
    ensures Swap32(Swap32(s)) == s
  {
    if |s| <= 4 {
      ReversedTwice(s);
    } else {
      var head, tail := Reversed(s[..4]), Swap32(s[4..]);
      assert (head + tail)[..4] == head && (head + tail)[4..] == tail;
      ReversedTwice(s[..4]);
      SwapTwice(s[4..]);
    }
  }

  lemma {:induction false} ReversedAt(s: seq<Byte>, i: nat)
    requires i < |s|
    ensures Reversed(s)[i] == s[|s| - 1 - i]
  {
    if i < |s| - 1 { ReversedAt(s[1..], i); }
  }

  /** Byte i of the swapped payload is the one at the mirrored place in its group of four,
      or in the shorter rest. */
  lemma {:induction false} SwapAt(s: seq<Byte>, i: nat, base: nat, size: nat)
    requires i < |s| && base == i - i % 4 && size == if base + 4 <= |s| then 4 else |s| - base
    ensures Swap32(s)[i] == s[base + size - 1 - i % 4]
    decreases |s|
  {
    if |s| <= 4 {
      ReversedAt(s, i);
    } else if i < 4 {
      ReversedAt(s[..4], i);
    } else {
      var rest, k := s[4..], i - 4;
      SwapAt(rest, k, base - 4, size);
      assert Swap32(s)[i] == Swap32(rest)[k];
      assert rest[base - 4 + size - 1 - k % 4] == s[base + size - 1 - i % 4];
    }
  }

  /** `b"".join(payload[i:i + 4][::-1] for i in range(0, len(payload), 4))` */
  method SwapWords(payload: seq<Byte>) returns (swapped: seq<Byte>)
    ensures swapped == Swap32(payload)
  {
    swapped := [];
    var rest := payload;
    ghost var whole := Swap32(payload);
    while |rest| > 4
      invariant whole == swapped + Swap32(rest)
    {
      var word, left := rest[..4], rest[4..];
      assert swapped + (Reversed(word) + Swap32(left)) == swapped + Reversed(word) + Swap32(left);
      swapped := swapped + Reversed(word);
      rest := left;
    }
    swapped := swapped + Reversed(rest);
  }

  /** `check_bitbin`; None is a missing file. */
  method CheckBitbin(bitbin: Option<seq<Byte>>, bit: seq<Byte>, header: Header) returns (accepted: bool)
    ensures accepted <==> bitbin.Some? && Accepts(bitbin.value, bit, header)
  {
    if bitbin.None? || |bitbin.value| != header.payloadLen {
      return false;
    }
    var payload := Sub(bit, header.headerLen, header.payloadLen);
    if bitbin.value != payload {
      var swapped := SwapWords(payload);
      return bitbin.value == swapped;
    }
    return true;
  }

  predicate Accepts(bb: seq<Byte>, bit: seq<Byte>, header: Header) {
    var payload := Sub(bit, header.headerLen, header.payloadLen);
    |bb| == header.payloadLen && (bb == payload || bb == Swap32(payload))
  }

  /** Against the header of its own `.bit`, a file is accepted exactly when it is the
      payload, or swapping its words gives the payload. */
  lemma AcceptsThePayload(fs: seq<Field>, payload: seq<Byte>, rest: seq<Byte>, bb: seq<Byte>)
    requires |fs| == 4 && AllPrintable(fs) && |payload| < 0x1_0000_0000 && |Print(fs, |payload|)| <= READ_SIZE
    ensures var bit := Print(fs, |payload|) + (payload + rest);
      Parse(bit).Ok? && (Accepts(bb, bit, Parse(bit).value) <==> bb == payload || Swap32(bb) == payload)
  {
    var text := Print(fs, |payload|);
    var bit := text + (payload + rest);
    ParsePrinted(fs, |payload|, payload + rest);
    PayloadRead(text, payload, rest, bit);
    SwapTwice(bb);
    SwapTwice(payload);
  }

  lemma PayloadRead(text: seq<Byte>, payload: seq<Byte>, rest: seq<Byte>, bit: seq<Byte>)
    requires bit == text + (payload + rest)
    ensures Sub(bit, |text|, |payload|) == payload
  {
    assert bit[|text|..] == payload + rest;
    assert bit[|text|..|text| + |payload|] == payload;
  }

  /** A `.bit` cut off inside its payload has no acceptable file. */
  lemma TruncatedIsRejected(fs: seq<Field>, payloadLen: nat, cut: seq<Byte>, bb: seq<Byte>)
    requires |fs| == 4 && AllPrintable(fs) && |cut| < payloadLen < 0x1_0000_0000
    requires |Print(fs, payloadLen)| <= READ_SIZE
    ensures var bit := Print(fs, payloadLen) + cut;
      Parse(bit).Ok? && !Accepts(bb, bit, Parse(bit).value)
  {
    ParsePrinted(fs, payloadLen, cut);
  }
}
