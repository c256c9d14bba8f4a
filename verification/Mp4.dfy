/** The MP4/QuickTime atom walker that dates videos: box headers as in section 4.2 of ISO/IEC 14496-12,
    the movie header as in section 8.2.2, and 64-bit wrapping arithmetic throughout. */
module Mp4 {
  import opened Domain

  const MOOV: Bytes := [0x6d, 0x6f, 0x6f, 0x76]
  const MVHD: Bytes := [0x6d, 0x76, 0x68, 0x64]

  // ---------- machine arithmetic and big-endian numbers ----------

  const TWO63: int := 0x8000_0000_0000_0000

  predicate IsInt64(x: int) { -TWO63 <= x < TWO63 }

  /** Signed 64-bit wrap-around. */
  function W64(x: int): (w: int)
    ensures IsInt64(w) && (IsInt64(x) ==> w == x)
    ensures TWO63 <= x < 2 * TWO63 ==> w == x - 2 * TWO63
  {
    (x + 0x8000_0000_0000_0000) % 0x1_0000_0000_0000_0000 - 0x8000_0000_0000_0000
  }

  function Be(b: Bytes): nat { if b == [] then 0 else Be(b[..|b| - 1]) * 256 + b[|b| - 1] }

  /** The first byte counts most. */
  lemma {:induction false} BeIs(b: Bytes)
    requires |b| == 4
    ensures Be(b) == 0x100_0000 * (b[0] as int) + 0x1_0000 * (b[1] as int) + 0x100 * (b[2] as int) + b[3] as int
  {
    assert b[..3][..2] == b[..2] && b[..2][..1] == b[..1] && b[..1][..0] == [];
    assert Be(b[..1]) == b[0] as int && Be(b[..2]) == (b[0] as int) * 256 + b[1] as int;
  }

  function ToBe(n: nat, width: nat): (b: Bytes)
    ensures |b| == width
  {
    if width == 0 then [] else ToBe(n / 256, width - 1) + [n % 256]
  }

  function Pow256(k: nat): nat { if k == 0 then 1 else 256 * Pow256(k - 1) }

  lemma {:induction false} BeToBe(n: nat, width: nat)
    requires n < Pow256(width)
    ensures Be(ToBe(n, width)) == n
  {
    if width > 0 {
      var b := ToBe(n, width);
      assert b[..|b| - 1] == ToBe(n / 256, width - 1);
      BeToBe(n / 256, width - 1);
    }
  }

  lemma {:induction false} BeBound(b: Bytes)
    ensures Be(b) < Pow256(|b|)
  {
    if b != [] { BeBound(b[..|b| - 1]); }
  }

  lemma Widths()
    ensures Pow256(4) == 0x1_0000_0000 && Pow256(8) == 2 * TWO63
  {
    assert Pow256(1) == 0x100 && Pow256(2) == 0x1_0000 && Pow256(3) == 0x100_0000;
    assert Pow256(5) == 0x100_0000_0000 && Pow256(6) == 0x1_0000_0000_0000 && Pow256(7) == 0x100_0000_0000_0000;
  }

  // ---------- reading ----------

  /** A positioned read of exactly n bytes; it fails before the start and past the end of the file. */
  function ReadAt(file: Bytes, off: int, n: nat): Option<Bytes> {
    if 0 <= off && off + n <= |file| then Some(file[off..off + n]) else None
  }

  datatype Header = Header(off: int, typ: Bytes, headerLen: nat, size: int)

  /** The atom header at an offset of a region that ends at end; None when unreadable or malformed. */
  function HeaderAt(file: Bytes, off: int, end: int): (r: Option<Header>)
    requires |file| < TWO63
    ensures r.Some? ==> 0 <= off == r.value.off && off + r.value.headerLen <= |file|
    ensures r.Some? ==> 8 <= r.value.headerLen <= r.value.size < TWO63
  {
    match ReadAt(file, off, 8)
    case None => None
    case Some(hdr) =>
      var word, typ := Be(hdr[..4]), hdr[4..];
      BeBound(hdr[..4]);
      assert word < TWO63 by { Widths(); }
      if word == 1 then
        match ReadAt(file, W64(off + 8), 8)
        case None => None
        case Some(ext) => if W64(Be(ext)) < 16 then None else Some(Header(off, typ, 16, W64(Be(ext))))
      else
        var size := if word == 0 then W64(end - off) else word;
        if size < 8 then None else Some(Header(off, typ, 8, size))
  }

  /** How many more bytes the walk can still read through. */
  function Room(file: Bytes, off: int): nat { if 0 <= off <= |file| then |file| - off + 8 else 0 }

  /** The chain of headers in a region, whatever their types; it ends where the walk can go no further. */
  function Walk(file: Bytes, off: int, end: int): seq<Header>
    requires |file| < TWO63
    decreases Room(file, off)
  {
    if W64(off + 8) > end then [] else
      match HeaderAt(file, off, end)
      case None => []
      case Some(h) => [h] + Walk(file, W64(off + h.size), end)
  }

  function FirstOfType(headers: seq<Header>, want: Bytes): Option<Header> {
    if headers == [] then None
    else if headers[0].typ == want then Some(headers[0]) else FirstOfType(headers[1..], want)
  }

  datatype Region = Region(start: int, end: int)

  function Payload(h: Option<Header>): Option<Region> {
    match h case None => None case Some(h) => Some(Region(W64(h.off + h.headerLen), W64(h.off + h.size)))
  }

  lemma FindOne(file: Bytes, off: int, end: int, want: Bytes)
    requires |file| < TWO63
    ensures var h := if W64(off + 8) <= end then HeaderAt(file, off, end) else None;
      FirstOfType(Walk(file, off, end), want) ==
        if h.None? || h.value.typ == want then h else FirstOfType(Walk(file, W64(off + h.value.size), end), want)
  {
    hide HeaderAt;
    if W64(off + 8) <= end && HeaderAt(file, off, end).Some? {
      var h := HeaderAt(file, off, end).value;
      assert ([h] + Walk(file, W64(off + h.size), end))[1..] == Walk(file, W64(off + h.size), end);
    }
  }

  /** The walk ends on any bytes whatever, wrapped offsets included, and finds the first header of its
      chain that has the wanted type. */
  method FindAtom(file: Bytes, start: int, end: int, want: Bytes) returns (r: Option<Region>)
    requires |file| < TWO63 && IsInt64(start) && IsInt64(end)
    ensures r == Payload(FirstOfType(Walk(file, start, end), want))
  {
    hide Walk, FirstOfType, Be;
    var off := start;
    while W64(off + 8) <= end
      invariant FirstOfType(Walk(file, off, end), want) == FirstOfType(Walk(file, start, end), want)
      decreases Room(file, off)
    {
      FindOne(file, off, end, want);
      var hdr := ReadAt(file, off, 8);
      if hdr.None? { return None; }
      var size, headerLen := Be(hdr.value[..4]), 8;
      var typ := hdr.value[4..];
      if size == 1 {
        var ext := ReadAt(file, W64(off + 8), 8);
        if ext.None? { return None; }
        size := W64(Be(ext.value));
        headerLen := 16;
      } else if size == 0 {
        size := W64(end - off);
      }
      if size < headerLen { return None; }
      assert HeaderAt(file, off, end) == Some(Header(off, typ, headerLen, size));
      if typ == want { return Some(Region(W64(off + headerLen), W64(off + size))); }
      off := W64(off + size);
    }
    FindOne(file, off, end, want);
    r := None;
  }

  /** On any bytes the chain is short: its headers lie inside the file, each at least eight bytes after
      the one before. */
  lemma {:induction false} WalkIsShort(file: Bytes, off: int, end: int)
    requires |file| < TWO63
    ensures Walk(file, off, end) != [] ==> 8 * |Walk(file, off, end)| <= |file| - off
    ensures forall i :: 0 <= i < |Walk(file, off, end)| ==> off + 8 * i <= Walk(file, off, end)[i].off
    decreases Room(file, off)
  {
    var w := Walk(file, off, end);
    if w != [] {
      var next := W64(off + w[0].size);
      WalkIsShort(file, next, end);
    }
  }

  // ---------- the movie header ----------

  const SECOND: int := 1_000_000_000

  /** Nanoseconds after 1904-01-01, as the 64-bit duration arithmetic gives them. */
  function Nanos(secs: nat): int { W64(W64(secs) * SECOND) }

  /** How often a number wraps around. */
  function Wraps(x: int): int { -((x + 0x8000_0000_0000_0000) / 0x1_0000_0000_0000_0000) }

  lemma WrapsBy(x: int)
    ensures W64(x) == x + Wraps(x) * 0x1_0000_0000_0000_0000
  {
  }

  /** The date is exact for every 32-bit creation time, and for a 64-bit one exactly up to the last
      whole second whose nanosecond count fits. */
  lemma DateIsExactIff(secs: nat)
    requires secs < 2 * TWO63
    ensures Nanos(secs) == secs * SECOND <==> secs <= 9_223_372_036
  {
    if secs > 9_223_372_036 {
      assert secs * SECOND >= 9_223_372_037 * SECOND > TWO63;
    } else {
      assert 0 <= secs * SECOND <= 9_223_372_036 * SECOND < TWO63;
    }
  }

  /** Beyond that it is the exact count wrapped around. */
  lemma DateWraps(secs: nat)
    ensures IsInt64(Nanos(secs)) && (Nanos(secs) - secs * 1_000_000_000) % 0x1_0000_0000_0000_0000 == 0
  {
    hide W64, Wraps;
    WrapsBy(secs);
    WrapsBy(W64(secs) * SECOND);
    var k := Wraps(secs) * SECOND + Wraps(W64(secs) * SECOND);
    assert Nanos(secs) == secs * SECOND + k * 0x1_0000_0000_0000_0000;
    Multiple(k);
  }

  lemma Multiple(k: int)
    ensures (k * 0x1_0000_0000_0000_0000) % 0x1_0000_0000_0000_0000 == 0
  {
  }

  function DateAt(file: Bytes, off: int): Option<int> {
    match ReadAt(file, off, 4)
    case None => None
    case Some(head) =>
      match ReadAt(file, W64(off + 4), if head[0] == 1 then 8 else 4)
      case None => None
      case Some(b) => if Be(b) == 0 then None else Some(Nanos(Be(b)))
  }

  method ReadMvhd(file: Bytes, off: int) returns (r: Option<int>)
    ensures r == DateAt(file, off)
  {
    var head := ReadAt(file, off, 4);
    if head.None? { return None; }
    var secs: nat;
    if head.value[0] == 1 {
      var b := ReadAt(file, W64(off + 4), 8);
      if b.None? { return None; }
      secs := Be(b.value);
    } else {
      var b := ReadAt(file, W64(off + 4), 4);
      if b.None? { return None; }
      secs := Be(b.value);
    }
    if secs == 0 { return None; }
    r := Some(Nanos(secs));
  }

  function Locate(file: Bytes, region: Region, want: Bytes): Option<Region>
    requires |file| < TWO63
  {
    Payload(FirstOfType(Walk(file, region.start, region.end), want))
  }

  /** The date of the first moov's first mvhd. */
  function CreationDate(file: Bytes): Option<int>
    requires |file| < TWO63
  {
    match Locate(file, Region(0, |file|), MOOV)
    case None => None
    case Some(moov) =>
      match Locate(file, moov, MVHD)
      case None => None
      case Some(mvhd) => DateAt(file, mvhd.start)
  }

  /** An unreadable file has no date. */
  method Mp4CreationDate(file: Option<Bytes>) returns (r: Option<int>)
    requires file.Some? ==> |file.value| < TWO63
    ensures r == match file case None => None case Some(f) => CreationDate(f)
  {
    if file.None? { return None; }
    var f := file.value;
    var moov := FindAtom(f, 0, |f|, MOOV);
    if moov.None? { return None; }
    var mvhd := FindAtom(f, moov.value.start, moov.value.end, MVHD);
    if mvhd.None? { return None; }
    r := ReadMvhd(f, mvhd.value.start);
  }

  // ---------- the serializer to invert ----------

  datatype Form = Short | Long | ToEnd     // 32-bit size, 64-bit size, size 0: to the end of the region

  datatype Atom = Atom(typ: Bytes, form: Form, payload: Bytes)
  {
    function HeaderLen(): nat { if form.Long? then 16 else 8 }

    function Size(): nat { HeaderLen() + |payload| }

    predicate Encodable() { |typ| == 4 && Size() < if form.Short? then 0x1_0000_0000 else TWO63 }

    function Head(): (b: Bytes)
      ensures |typ| == 4 ==> |b| == HeaderLen()
    {
      match form
      case Short => ToBe(Size(), 4) + typ
      case Long => ToBe(1, 4) + typ + ToBe(Size(), 8)
      case ToEnd => ToBe(0, 4) + typ
    }
  }

  function Serialize(atoms: seq<Atom>): Bytes {
    if atoms == [] then [] else atoms[0].Head() + atoms[0].payload + Serialize(atoms[1..])
  }

  /** Sizes fit their fields, and only the last atom may run to the end of the region. */
  predicate WellFormed(atoms: seq<Atom>) {
    atoms == [] || (atoms[0].Encodable() && (atoms[0].form.ToEnd? ==> |atoms| == 1) && WellFormed(atoms[1..]))
  }

  /** Where the atoms' headers lie when the first starts at off. */
  function Layout(off: nat, atoms: seq<Atom>): seq<Header>
    decreases |atoms|
  {
    if atoms == [] then [] else
      var a := atoms[0];
      [Header(off, a.typ, a.HeaderLen(), a.Size())] + Layout(off + a.Size(), atoms[1..])
  }

  /** The file holds these bytes at this offset. */
  predicate Holds(file: Bytes, off: nat, b: Bytes) { off + |b| <= |file| && file[off..off + |b|] == b }

  lemma HoldsParts(file: Bytes, off: nat, a: Bytes, b: Bytes)
    requires Holds(file, off, a + b)
    ensures Holds(file, off, a) && Holds(file, off + |a|, b)
  {
    assert file[off..off + |a|] == (a + b)[..|a|];
    assert file[off + |a|..off + |a| + |b|] == (a + b)[|a|..];
  }

  /** A part of what a file holds. */
  lemma HoldsSlice(file: Bytes, off: nat, b: Bytes, lo: nat, hi: nat)
    requires Holds(file, off, b) && lo <= hi <= |b|
    ensures file[off + lo..off + hi] == b[lo..hi]
  {
    forall i | 0 <= i < hi - lo ensures file[off + lo..off + hi][i] == b[lo..hi][i] {
      assert file[off..off + |b|][lo + i] == file[off + (lo + i)];
    }
  }

  lemma HeaderReadsBack(file: Bytes, off: nat, a: Atom, end: int)
    requires a.Encodable() && Holds(file, off, a.Head()) && |file| < TWO63
    requires a.form.ToEnd? ==> end == off + a.Size()
    ensures HeaderAt(file, off, end) == Some(Header(off, a.typ, a.HeaderLen(), a.Size()))
  {
    Widths();
    var hdr := file[off..off + 8];
    assert hdr == a.Head()[..8] && hdr[4..] == a.typ;
    match a.form
    case Short =>
      assert hdr[..4] == ToBe(a.Size(), 4);
      BeToBe(a.Size(), 4);
    case Long =>
      assert hdr[..4] == ToBe(1, 4);
      assert file[off + 8..off + 16] == a.Head()[8..] == ToBe(a.Size(), 8);
      BeToBe(1, 4);
      BeToBe(a.Size(), 8);
    case ToEnd =>
      assert hdr[..4] == ToBe(0, 4);
      BeToBe(0, 4);
  }

  lemma {:induction false} FirstPartsHeld(file: Bytes, off: nat, atoms: seq<Atom>)
    requires WellFormed(atoms) && atoms != [] && Holds(file, off, Serialize(atoms))
    ensures var a := atoms[0];
      Holds(file, off, a.Head()) && Holds(file, off + a.HeaderLen(), a.payload) &&
        Holds(file, off + a.Size(), Serialize(atoms[1..]))
    ensures |Serialize(atoms)| == atoms[0].Size() + |Serialize(atoms[1..])|
  {
    hide Atom.Head, Holds;
    HoldsParts(file, off, atoms[0].Head() + atoms[0].payload, Serialize(atoms[1..]));
    HoldsParts(file, off, atoms[0].Head(), atoms[0].payload);
  }

  lemma {:induction false} WalkOne(file: Bytes, off: nat, end: int, atoms: seq<Atom>)
    requires |file| < TWO63 && atoms != [] && atoms[0].Encodable() && off + atoms[0].Size() <= end <= |file|
    requires var a := atoms[0]; HeaderAt(file, off, end) == Some(Header(off, a.typ, a.HeaderLen(), a.Size()))
    ensures var a, rest := atoms[0], off + atoms[0].Size();
      var h := Header(off, a.typ, a.HeaderLen(), a.Size());
      Walk(file, off, end) == [h] + Walk(file, rest, end) && Layout(off, atoms) == [h] + Layout(rest, atoms[1..])
  {
    hide HeaderAt;
  }

  lemma {:induction false} WalkNone(file: Bytes, off: nat)
    requires off <= |file| < TWO63
    ensures Walk(file, off, off) == [] == Layout(off, [])
  {
  }

  /** Walking a serialized region visits exactly its atoms, in order. */
  lemma {:induction false} WalkOfSerialized(file: Bytes, off: nat, atoms: seq<Atom>)
    requires WellFormed(atoms) && Holds(file, off, Serialize(atoms)) && |file| < TWO63
    ensures Walk(file, off, off + |Serialize(atoms)|) == Layout(off, atoms)
    decreases |atoms|
  {
    hide HeaderAt, Atom.Head, Serialize, Walk, Layout, W64;
    SerializeNone();
    if atoms == [] {
      WalkNone(file, off);
    } else {
      assert atoms[0].form.ToEnd? ==> atoms[1..] == [];
      FirstPartsHeld(file, off, atoms);
      HeaderReadsBack(file, off, atoms[0], off + |Serialize(atoms)|);
      WalkOfSerialized(file, off + atoms[0].Size(), atoms[1..]);
      assert off + |Serialize(atoms)| == off + atoms[0].Size() + |Serialize(atoms[1..])|;
      WalkOne(file, off, off + |Serialize(atoms)|, atoms);
    }
  }

  lemma SerializeNone()
    ensures Serialize([]) == []
  {
  }

  predicate IsFirstOfType(atoms: seq<Atom>, k: nat, want: Bytes) {
    k < |atoms| && atoms[k].typ == want && forall i :: 0 <= i < k ==> atoms[i].typ != want
  }

  /** Where the payload of the k-th atom starts, when the first atom starts at off. */
  function PayloadOff(off: nat, atoms: seq<Atom>, k: nat): nat
    requires k < |atoms|
    decreases k
  {
    if k == 0 then off + atoms[0].HeaderLen() else PayloadOff(off + atoms[0].Size(), atoms[1..], k - 1)
  }

  lemma {:induction false} FirstOfLayout(off: nat, atoms: seq<Atom>, k: nat, want: Bytes)
    requires IsFirstOfType(atoms, k, want)
    ensures var a, p := atoms[k], PayloadOff(off, atoms, k);
      FirstOfType(Layout(off, atoms), want) == Some(Header(p - a.HeaderLen(), want, a.HeaderLen(), a.Size()))
    decreases k
  {
    var rest := Layout(off + atoms[0].Size(), atoms[1..]);
    assert Layout(off, atoms)[1..] == rest;
    if k > 0 {
      assert atoms[0].typ != want;
      FirstOfLayout(off + atoms[0].Size(), atoms[1..], k - 1, want);
    }
  }

  lemma {:induction false} NoneInLayout(off: nat, atoms: seq<Atom>, want: Bytes)
    ensures FirstOfType(Layout(off, atoms), want).None? <==> forall i :: 0 <= i < |atoms| ==> atoms[i].typ != want
    decreases |atoms|
  {
    if atoms != [] {
      var rest := Layout(off + atoms[0].Size(), atoms[1..]);
      assert Layout(off, atoms)[1..] == rest;
      NoneInLayout(off + atoms[0].Size(), atoms[1..], want);
      assert forall i :: 0 < i < |atoms| ==> atoms[i] == atoms[1..][i - 1];
    }
  }

  lemma {:induction false} PayloadIsHeld(file: Bytes, off: nat, atoms: seq<Atom>, k: nat)
    requires WellFormed(atoms) && Holds(file, off, Serialize(atoms)) && k < |atoms|
    ensures Holds(file, PayloadOff(off, atoms, k), atoms[k].payload)
    decreases k
  {
    hide Holds, Atom.Head, Serialize;
    FirstPartsHeld(file, off, atoms);
    if k > 0 {
      PayloadIsHeld(file, off + atoms[0].Size(), atoms[1..], k - 1);
    }
  }

  /** These bytes are these atoms, serialized. */
  ghost predicate Encodes(b: Bytes, atoms: seq<Atom>) {
    WellFormed(atoms) && b == Serialize(atoms)
  }

  /** The search fails exactly when no atom of the region has the type. */
  lemma FindFailsIffAbsent(file: Bytes, off: nat, b: Bytes, atoms: seq<Atom>, want: Bytes)
    requires Encodes(b, atoms) && Holds(file, off, b) && |file| < TWO63
    ensures Locate(file, Region(off, off + |b|), want).None? <==> forall i :: 0 <= i < |atoms| ==> atoms[i].typ != want
  {
    hide Walk, Layout, Serialize, Holds;
    WalkOfSerialized(file, off, atoms);
    NoneInLayout(off, atoms, want);
  }

  /** The search returns exactly the payload of the first atom of the type, whatever the size forms. */
  lemma {:induction false} FindReturnsFirstPayload(file: Bytes, off: nat, b: Bytes, atoms: seq<Atom>, k: nat,
                                                   want: Bytes)
    requires Encodes(b, atoms) && Holds(file, off, b) && |file| < TWO63 && IsFirstOfType(atoms, k, want)
    ensures Holds(file, PayloadOff(off, atoms, k), atoms[k].payload)
    ensures Locate(file, Region(off, off + |b|), want)
         == Some(Region(PayloadOff(off, atoms, k), PayloadOff(off, atoms, k) + |atoms[k].payload|))
  {
    hide Walk, Layout, Serialize;
    WalkOfSerialized(file, off, atoms);
    FirstOfLayout(off, atoms, k, want);
    PayloadIsHeld(file, off, atoms, k);
    assert Holds(file, PayloadOff(off, atoms, k), atoms[k].payload);
  }

  /** A movie header payload: version, flags, creation time, and the fields after it. */
  function Mvhd(version: Byte, flags: Bytes, secs: nat, rest: Bytes): Bytes {
    [version] + flags + ToBe(secs, if version == 1 then 8 else 4) + rest
  }

  lemma DateReadsBack(file: Bytes, off: nat, version: Byte, flags: Bytes, secs: nat, rest: Bytes)
    requires |flags| == 3 && secs < (if version == 1 then 2 * TWO63 else 0x1_0000_0000)
    requires Holds(file, off, Mvhd(version, flags, secs, rest)) && |file| < TWO63
    ensures DateAt(file, off) == if secs == 0 then None else Some(Nanos(secs))
  {
    var n, m := if version == 1 then 8 else 4, Mvhd(version, flags, secs, rest);
    HoldsSlice(file, off, m, 0, 4);
    HoldsSlice(file, off, m, 4, 4 + n);
    assert m[0..4] == [version] + flags;
    assert m[4..4 + n] == ToBe(secs, n);
    Widths();
    BeToBe(secs, n);
  }

  /** The round trip: of any well-formed file whose first moov holds any well-formed list of atoms, the
      date found is the creation time of that list's first mvhd; a zero time counts as no date. */
  lemma CreationDateReadsBack(file: Bytes, top: seq<Atom>, m: nat, inner: seq<Atom>, h: nat,
                              version: Byte, flags: Bytes, secs: nat, rest: Bytes)
    requires Encodes(file, top) && |file| < TWO63 && IsFirstOfType(top, m, MOOV)
    requires Encodes(top[m].payload, inner) && IsFirstOfType(inner, h, MVHD)
    requires inner[h].payload == Mvhd(version, flags, secs, rest)
    requires |flags| == 3 && secs < (if version == 1 then 2 * TWO63 else 0x1_0000_0000)
    ensures CreationDate(file) == if secs == 0 then None else Some(Nanos(secs))
    ensures 0 < secs <= 9_223_372_036 ==> CreationDate(file) == Some(secs * SECOND)
  {
    hide Locate, Mvhd, DateAt, Nanos, Encodes;
    FindReturnsFirstPayload(file, 0, file, top, m, MOOV);
    var p := PayloadOff(0, top, m);
    FindReturnsFirstPayload(file, p, top[m].payload, inner, h, MVHD);
    DateReadsBack(file, PayloadOff(p, inner, h), version, flags, secs, rest);
    DateIsExactIff(secs);
  }

  /** There is a date only if there is a moov, and the first of them has an mvhd. */
  lemma NoMovieHeaderNoDate(file: Bytes, top: seq<Atom>, m: nat, inner: seq<Atom>)
    requires Encodes(file, top) && |file| < TWO63
    requires (forall i :: 0 <= i < |top| ==> top[i].typ != MOOV)
      || (IsFirstOfType(top, m, MOOV) && Encodes(top[m].payload, inner) &&
          forall i :: 0 <= i < |inner| ==> inner[i].typ != MVHD)
    ensures CreationDate(file) == None
  {
    hide Locate, Encodes;
    FindFailsIffAbsent(file, 0, file, top, MOOV);
    if IsFirstOfType(top, m, MOOV) {
      FindReturnsFirstPayload(file, 0, file, top, m, MOOV);
      FindFailsIffAbsent(file, PayloadOff(0, top, m), top[m].payload, inner, MVHD);
    }
  }

  // ---------- damaged files ----------

  /** A header at this offset that no atom can have: a 32-bit size between 2 and 7, or a 64-bit size, read as a
      signed number, below 16. */
  predicate Malformed(file: Bytes, off: nat) {
    && off + 8 <= |file|
    && (|| 2 <= Be(file[off..off + 4]) < 8
        || (Be(file[off..off + 4]) == 1 && off + 16 <= |file| && W64(Be(file[off + 8..off + 16])) < 16))
  }

  lemma MalformedIsNone(file: Bytes, off: nat, end: int)
    requires |file| < TWO63 && Malformed(file, off)
    ensures HeaderAt(file, off, end) == None
  {
    var hdr := file[off..off + 8];
    assert hdr[..4] == file[off..off + 4];
  }

  /** Sizes fit their fields, and none runs to the end: such atoms may have something after them. */
  predicate Bounded(atoms: seq<Atom>) { forall i :: 0 <= i < |atoms| ==> atoms[i].Encodable() && !atoms[i].form.ToEnd? }

  lemma {:induction false} BoundedIsWellFormed(atoms: seq<Atom>)
    requires Bounded(atoms)
    ensures WellFormed(atoms)
  {
    if atoms != [] { BoundedIsWellFormed(atoms[1..]); }
  }

  lemma BoundedParts(atoms: seq<Atom>)
    requires Bounded(atoms) && atoms != []
    ensures Bounded(atoms[1..]) && atoms[0].Encodable() && !atoms[0].form.ToEnd?
  {
  }

  /** Over a region that begins with some atoms the walk visits them, and goes on behind them. */
  lemma {:induction false} WalkPasses(file: Bytes, off: nat, atoms: seq<Atom>, next: nat, end: int)
    requires Bounded(atoms) && Holds(file, off, Serialize(atoms)) && |file| < TWO63
    requires next == off + |Serialize(atoms)| && next <= end <= |file|
    ensures Walk(file, off, end) == Layout(off, atoms) + Walk(file, next, end)
    decreases |atoms|
  {
    hide HeaderAt, Atom.Head, Serialize, Walk, Layout, W64, Bounded, WellFormed, Holds;
    BoundedIsWellFormed(atoms);
    SerializeNone();
    if atoms == [] {
      WalkNone(file, off);
    } else {
      BoundedParts(atoms);
      FirstPartsHeld(file, off, atoms);
      HeaderReadsBack(file, off, atoms[0], end);
      WalkPasses(file, off + atoms[0].Size(), atoms[1..], next, end);
      WalkOne(file, off, end, atoms);
    }
  }

  /** If what follows some atoms cannot be a header, because it is malformed or too close to the end of the region,
      the walk visits exactly those atoms, and a type is found among them or not at all. */
  lemma {:induction false} DamageEndsTheWalk(file: Bytes, off: nat, atoms: seq<Atom>, next: nat, end: int, want: Bytes)
    requires Bounded(atoms) && Holds(file, off, Serialize(atoms)) && |file| < TWO63
    requires next == off + |Serialize(atoms)| && next <= end <= |file| && (next + 8 > end || Malformed(file, next))
    ensures Walk(file, off, end) == Layout(off, atoms)
    ensures Locate(file, Region(off, end), want).None? <==> forall i :: 0 <= i < |atoms| ==> atoms[i].typ != want
  {
    WalkPasses(file, off, atoms, next, end);
    if next + 8 <= end { MalformedIsNone(file, next, end); }
    hide Layout, HeaderAt, Malformed;
    assert Walk(file, next, end) == [] && Layout(off, atoms) + [] == Layout(off, atoms);
    NoneInLayout(off, atoms, want);
  }

  lemma {:induction false} FirstBehind(a: seq<Header>, b: seq<Header>, want: Bytes)
    requires FirstOfType(a, want) == None
    ensures FirstOfType(a + b, want) == FirstOfType(b, want)
  {
    if a == [] {
      assert a + b == b;
    } else {
      assert (a + b)[1..] == a[1..] + b;
      FirstBehind(a[1..], b, want);
    }
  }

  /** A header of the wanted type after atoms of other types is found whatever size it claims, also one that runs
      past the end of the region or of the file; the region returned ends where it claims to. */
  lemma {:induction false} ClaimedSizeIsBelieved(file: Bytes, off: nat, atoms: seq<Atom>, next: nat, end: int,
                                                 want: Bytes)
    requires Bounded(atoms) && Holds(file, off, Serialize(atoms)) && |file| < 0x4000_0000_0000_0000
    requires (forall i :: 0 <= i < |atoms| ==> atoms[i].typ != want) && next == off + |Serialize(atoms)|
    requires next + 8 <= end <= |file| && Be(file[next..next + 4]) >= 8 && file[next + 4..next + 8] == want
    ensures Locate(file, Region(off, end), want) == Some(Region(next + 8, next + Be(file[next..next + 4])))
  {
    hide Walk, Layout, Serialize, Holds, HeaderAt, Be, FirstOfType;
    WalkPasses(file, off, atoms, next, end);
    NoneInLayout(off, atoms, want);
    FirstBehind(Layout(off, atoms), Walk(file, next, end), want);
    ClaimedHeader(file, next, end, want);
  }

  lemma ClaimedHeader(file: Bytes, off: nat, end: int, want: Bytes)
    requires off + 8 <= end <= |file| < 0x4000_0000_0000_0000
    requires Be(file[off..off + 4]) >= 8 && file[off + 4..off + 8] == want
    ensures Locate(file, Region(off, end), want) == Some(Region(off + 8, off + Be(file[off..off + 4])))
  {
    hide Walk, Be;
    var hdr := file[off..off + 8];
    assert hdr[..4] == file[off..off + 4] && hdr[4..] == want;
    BeBound(hdr[..4]);
    Widths();
    FindOne(file, off, end, want);
  }

  /** A movie header that the file ends inside of gives no date: version 1 needs twelve bytes, any other eight. */
  lemma TruncatedGivesNoDate(file: Bytes, off: nat)
    requires |file| < TWO63
    requires |file| < off + 4 || |file| < off + if file[off] == 1 then 12 else 8
    ensures DateAt(file, off) == None
  {
  }

  /** And one that is whole gives a date unless its time is zero. */
  lemma WholeGivesDate(file: Bytes, off: nat)
    requires |file| < TWO63 && off + 8 <= |file| && (file[off] == 1 ==> off + 12 <= |file|)
    ensures var secs := Be(file[off + 4..off + if file[off] == 1 then 12 else 8]);
      DateAt(file, off) == if secs == 0 then None else Some(Nanos(secs))
  {
  }
}
