/** Types shared by the ingest model: file contents, slots, destination paths, and the names of
    in-flight temp files. */
module Domain {
  datatype Option<+T> = None | Some(value: T)

  type Byte = b: int | 0 <= b < 256
  type Bytes = seq<Byte>
  type Hash = string
  type Slot = string

  ghost predicate Distinct(s: seq<string>) { forall i, j :: 0 <= i < j < |s| ==> s[i] != s[j] }

  /** Where a verified file lands: the directory the layout expands to, and the card file's base name. */
  datatype Place = Place(dir: string, name: string)

  // ---------- temp-file names ----------

  function Decimal(n: nat): (s: string)
    ensures s != [] && forall c :: c in s ==> '0' <= c <= '9'
  {
    if n < 10 then [DigitChar(n)] else Decimal(n / 10) + [DigitChar(n % 10)]
  }

  function DigitChar(d: nat): (c: char)
    requires d < 10
    ensures '0' <= c <= '9' && c as int == '0' as int + d
  {
    (d + '0' as int) as char
  }

  /** A cleaned relative path, as its elements. */
  type Path = seq<string>

  /** The elements between the slashes of a string; there is always at least one. */
  function Elements(s: string): (es: seq<string>)
    ensures es != []
  {
    if s == [] then [[]] else
      var n := |s| - 1;
      var es := Elements(s[..n]);
      if s[n] == '/' then es + [[]] else es[..|es| - 1] + [es[|es| - 1] + [s[n]]]
  }

  /** Lexical cleaning: empty elements and "." vanish, ".." takes the element before it away. */
  function Clean(elements: seq<string>): Path {
    if elements == [] then [] else CleanNext(Clean(elements[..|elements| - 1]), elements[|elements| - 1])
  }

  function CleanNext(path: Path, e: string): Path {
    if e == "" || e == "." then path
    else if e == ".." && path != [] && path[|path| - 1] != ".." then path[..|path| - 1]
    else path + [e]
  }

  const TMP_DIR := ".cardingest-tmp"

  /** The temp file a slot draws with ticket n: a name joined to the temp directory, and cleaned. */
  function TempName(slot: Slot, n: nat): Path {
    Clean([TMP_DIR] + Elements("ingest-" + slot + "-" + Decimal(n)))
  }

  lemma {:induction false} DecimalInjective(m: nat, n: nat)
    requires Decimal(m) == Decimal(n)
    ensures m == n
  {
    if m >= 10 && n >= 10 {
      var a, b := Decimal(m / 10), Decimal(n / 10);
      assert (a + [DigitChar(m % 10)])[..|a|] == a && (b + [DigitChar(n % 10)])[..|b|] == b;
      assert (a + [DigitChar(m % 10)])[|a|] == DigitChar(m % 10);
      DecimalInjective(m / 10, n / 10);
    }
  }

  lemma EarlierDashIsInTail(h1: string, d1: string, h2: string, d2: string)
    requires h1 + "-" + d1 == h2 + "-" + d2 && |h2| < |h1|
    ensures '-' in d2
  {
    var t := h2 + "-" + d2;
    assert t[|h1|] == (h1 + "-" + d1)[|h1|] == '-';
    assert d2[|h1| - |h2| - 1] == '-';
  }

  lemma {:induction false} ElementsEnd(s: string)
    ensures Elements(s)[|Elements(s)| - 1] == Base(s)
  {
    if s != [] { ElementsEnd(s[..|s| - 1]); }
  }

  lemma {:induction false} BaseSnoc(s: string, c: char)
    requires c != '/'
    ensures Base(s + [c]) == Base(s) + [c]
  {
    assert (s + [c])[..|s|] == s;
  }

  lemma {:induction false} BaseAppend(h: string, t: string)
    requires '/' !in t
    ensures Base(h + t) == Base(h) + t
  {
    hide Base;
    if t == [] {
      assert h + t == h;
    } else {
      var n := |t| - 1;
      assert t == t[..n] + [t[n]] && t[n] in t;
      assert h + t == (h + t[..n]) + [t[n]];
      BaseAppend(h, t[..n]);
      BaseSnoc(h + t[..n], t[n]);
    }
  }

  /** Cleaning never touches the last element of a temp name: it ends in a dash and the ticket. */
  lemma {:induction false} TempNameEnds(slot: Slot, n: nat)
    ensures TempName(slot, n) != []
    ensures TempName(slot, n)[|TempName(slot, n)| - 1] == Base("ingest-" + slot) + "-" + Decimal(n)
  {
    hide Decimal, Base, Elements;
    var name, tail := "ingest-" + slot + "-" + Decimal(n), "-" + Decimal(n);
    assert name == "ingest-" + slot + tail;
    BaseAppend("ingest-" + slot, tail);
    var last := Base("ingest-" + slot) + tail;
    assert last == Base("ingest-" + slot) + "-" + Decimal(n);
    var k := |Base("ingest-" + slot)|;
    assert last[k] == '-' && last != "" && last != "." && last != "..";
    var es := [TMP_DIR] + Elements(name);
    ElementsEnd(name);
    assert es[|es| - 1] == Elements(name)[|Elements(name)| - 1] == last;
  }

  /** Temp files drawn with different tickets are different files, whatever characters slot names use. */
  lemma {:induction false} TempNamesHaveOneTicket(slot1: Slot, n1: nat, slot2: Slot, n2: nat)
    requires TempName(slot1, n1) == TempName(slot2, n2)
    ensures Base("ingest-" + slot1) == Base("ingest-" + slot2) && n1 == n2
  {
    hide TempName, Base, Decimal;
    TempNameEnds(slot1, n1);
    TempNameEnds(slot2, n2);
    SplitAtLastDash(Base("ingest-" + slot1), Decimal(n1), Base("ingest-" + slot2), Decimal(n2));
    DecimalInjective(n1, n2);
  }

  lemma SplitAtLastDash(h1: string, d1: string, h2: string, d2: string)
    requires h1 + "-" + d1 == h2 + "-" + d2 && '-' !in d1 && '-' !in d2
    ensures h1 == h2 && d1 == d2
  {
    if |h1| > |h2| { EarlierDashIsInTail(h1, d1, h2, d2); }
    if |h1| < |h2| { EarlierDashIsInTail(h2, d2, h1, d1); }
    var t := h1 + "-" + d1;
    assert d1 == t[|h1| + 1..] && d2 == t[|h2| + 1..];
    assert h1 == t[..|h1|] && h2 == t[..|h2|];
  }

  /** For slot names without a slash the name determines the slot as well. */
  lemma TempNameInjective(slot1: Slot, n1: nat, slot2: Slot, n2: nat)
    requires '/' !in slot1 && '/' !in slot2 && TempName(slot1, n1) == TempName(slot2, n2)
    ensures slot1 == slot2 && n1 == n2
  {
    TempNamesHaveOneTicket(slot1, n1, slot2, n2);
    BaseAppend([], "ingest-" + slot1);
    BaseAppend([], "ingest-" + slot2);
    assert [] + ("ingest-" + slot1) == "ingest-" + slot1 && [] + ("ingest-" + slot2) == "ingest-" + slot2;
    assert slot1 == ("ingest-" + slot1)[7..] && slot2 == ("ingest-" + slot2)[7..];
  }

  lemma {:induction false} OneElement(s: string)
    requires '/' !in s
    ensures Elements(s) == [s]
  {
    if s != [] {
      OneElement(s[..|s| - 1]);
      assert s == s[..|s| - 1] + [s[|s| - 1]];
    }
  }

  /** And it lies directly in the temp directory. */
  lemma {:induction false} TempNameIs(slot: Slot, n: nat)
    requires '/' !in slot
    ensures TempName(slot, n) == [".cardingest-tmp", "ingest-" + slot + "-" + Decimal(n)]
  {
    hide Decimal, Elements;
    var name := "ingest-" + slot + "-" + Decimal(n);
    OneElement(name);
    assert name[0] == 'i';
    var path := [TMP_DIR] + [name];
    assert path[..1] == [TMP_DIR] && path[..1][..0] == [];
    assert Clean([]) == [] && Clean(path[..1]) == [TMP_DIR];
  }

  lemma {:induction false} ElementsSnoc(s: string, c: char)
    ensures var es := Elements(s);
      Elements(s + [c]) == if c == '/' then es + [[]] else es[..|es| - 1] + [es[|es| - 1] + [c]]
  {
    assert (s + [c])[..|s|] == s;
  }

  lemma SplitLast(x: seq<string>, y: seq<string>, e: string)
    requires y != []
    ensures var n, m := |x + y| - 1, |y| - 1;
      && (x + y)[n] == y[m] && (x + y)[..n] + [(x + y)[n] + e] == x + (y[..m] + [y[m] + e])
      && x + y + [[]] == x + (y + [[]])
  {
  }

  lemma {:induction false} ElementsJoin(a: string, b: string)
    ensures Elements(a + "/" + b) == Elements(a) + Elements(b)
  {
    if b == [] {
      assert a + "/" + b == a + ['/'];
      ElementsSnoc(a, '/');
    } else {
      var n, c := |b| - 1, b[|b| - 1];
      assert b == b[..n] + [c] && a + "/" + b == (a + "/" + b[..n]) + [c];
      hide Elements;
      ElementsJoin(a, b[..n]);
      ElementsSnoc(a + "/" + b[..n], c);
      ElementsSnoc(b[..n], c);
      SplitLast(Elements(a), Elements(b[..n]), [c]);
    }
  }

  lemma {:induction false} CleanSnoc(a: seq<string>, e: string)
    ensures Clean(a + [e]) == CleanNext(Clean(a), e)
  {
    assert (a + [e])[..|a|] == a;
  }

  lemma {:induction false} EmptyElementVanishes(a: seq<string>, b: seq<string>)
    ensures Clean(a + [""] + b) == Clean(a + b)
  {
    hide Clean;
    if b == [] {
      CleanSnoc(a, "");
      assert a + [""] + b == a + [""] && a + b == a;
    } else {
      var n := |b| - 1;
      assert a + [""] + b == (a + [""] + b[..n]) + [b[n]] && a + b == (a + b[..n]) + [b[n]];
      EmptyElementVanishes(a, b[..n]);
      CleanSnoc(a + [""] + b[..n], b[n]);
      CleanSnoc(a + b[..n], b[n]);
    }
  }

  lemma Reassociate(front: seq<string>, a: seq<string>, b: seq<string>)
    ensures front + (a + ([""] + b)) == front + a + [""] + b && front + (a + b) == front + a + b
  {
  }

  lemma {:induction false} DoubledSlashVanishes(front: seq<string>, a: string, b: string)
    ensures Clean(front + Elements(a + "/" + ("/" + b))) == Clean(front + Elements(a + "/" + b))
  {
    assert "/" + b == [] + "/" + b;
    ElementsJoin([], b);
    assert Elements([]) == [""];
    hide Clean, Elements;
    ElementsJoin(a, "/" + b);
    ElementsJoin(a, b);
    EmptyElementVanishes(front + Elements(a), Elements(b));
    Reassociate(front, Elements(a), Elements(b));
  }

  /** Why slashes are excluded there: slots that differ in a doubled slash share their temp names. */
  lemma DoubledSlashSharesTempName(h: string, t: string, n: nat)
    ensures TempName(h + "//" + t, n) == TempName(h + "/" + t, n)
  {
    hide Clean, Elements, Decimal;
    var a, b := "ingest-" + h, t + "-" + Decimal(n);
    assert "ingest-" + (h + "//" + t) + "-" + Decimal(n) == a + "/" + ("/" + b);
    assert "ingest-" + (h + "/" + t) + "-" + Decimal(n) == a + "/" + b;
    DoubledSlashVanishes([TMP_DIR], a, b);
  }

  /** The part of a card path after its last '/'. */
  function Base(path: string): (name: string)
    ensures '/' !in name
    ensures name == path || (|name| < |path| && path[|path| - |name| - 1] == '/' && name == path[|path| - |name|..])
  {
    if path == [] then []
    else if path[|path| - 1] == '/' then []
    else Base(path[..|path| - 1]) + [path[|path| - 1]]
  }
}
