/** Mapping a file to a category. The code ranges over a map, whose iteration order is arbitrary. */
module Categories {
  import opened Domain
  import opened Rules

  type Cats = map<string, seq<string>>

  /** The category lists this very extension (lower-cased); "*" never counts as one. */
  predicate Explicit(lib: Lib, exts: seq<string>, ext: string) {
    exists e :: e in exts && e != "*" && lib.lower(e) == ext
  }

  /** The outcome when the categories are visited in the given order. */
  function CategorizeIn(lib: Lib, cats: Cats, order: seq<string>, ext: string, catchAll: string): Option<string>
    requires forall c :: c in order ==> c in cats
  {
    if order == [] then (if catchAll != "" then Some(catchAll) else None)
    else if Explicit(lib, cats[order[0]], ext) then Some(order[0])
    else CategorizeIn(lib, cats, order[1..], ext, if "*" in cats[order[0]] then order[0] else catchAll)
  }

  ghost predicate IsOrder(order: seq<string>, keys: set<string>) {
    && (forall i, j :: 0 <= i < j < |order| ==> order[i] != order[j])
    && (forall c :: c in order <==> c in keys)
  }

  ghost function Explicits(lib: Lib, cats: Cats, ext: string): set<string> {
    set c | c in cats && Explicit(lib, cats[c], ext)
  }

  ghost function CatchAlls(cats: Cats): set<string> {
    set c | c in cats && "*" in cats[c]
  }

  /** What the categories allow: an explicit category if there is one; failing that the catch-all
      visited last, where a catch-all named by the empty string counts as none. */
  ghost predicate Legit(lib: Lib, cats: Cats, ext: string, r: Option<string>) {
    if Explicits(lib, cats, ext) != {} then r.Some? && r.value in Explicits(lib, cats, ext)
    else if CatchAlls(cats) != {} then
      if r.Some? then r.value != "" && r.value in CatchAlls(cats) else "" in CatchAlls(cats)
    else r.None?
  }

  /** The catch-all in force after visiting these categories. */
  ghost function LastCatchAll(cats: Cats, order: seq<string>): string
    requires forall c :: c in order ==> c in cats
  {
    if order == [] then "" else
      var c := order[|order| - 1];
      if "*" in cats[c] then c else LastCatchAll(cats, order[..|order| - 1])
  }

  lemma {:induction false} VisitAppend(lib: Lib, cats: Cats, order: seq<string>, tail: seq<string>, ext: string)
    requires forall c :: c in order || c in tail ==> c in cats
    requires forall c :: c in order ==> !Explicit(lib, cats[c], ext)
    ensures CategorizeIn(lib, cats, order + tail, ext, "") ==
      CategorizeIn(lib, cats, tail, ext, LastCatchAll(cats, order))
    decreases |order|
  {
    if order == [] {
      assert order + tail == tail;
    } else {
      var k := |order| - 1;
      assert order + tail == order[..k] + ([order[k]] + tail);
      assert ([order[k]] + tail)[1..] == tail;
      VisitAppend(lib, cats, order[..k], [order[k]] + tail, ext);
    }
  }

  lemma {:induction false} ExplicitEndsVisit(lib: Lib, cats: Cats, order: seq<string>, cat: string, rest: set<string>,
                                             ext: string)
    requires IsOrder(order, cats.Keys - rest) && cat in rest && rest <= cats.Keys
    requires forall c :: c in order ==> !Explicit(lib, cats[c], ext)
    requires Explicit(lib, cats[cat], ext)
    ensures exists o :: IsOrder(o, cats.Keys) && CategorizeIn(lib, cats, o, ext, "") == Some(cat)
  {
    var others := SomeOrder(rest - {cat});
    VisitAppend(lib, cats, order, [cat] + others, ext);
    OrdersConcatenate([cat], {cat}, others, rest - {cat});
    OrdersConcatenate(order, cats.Keys - rest, [cat] + others, {cat} + (rest - {cat}));
    assert cats.Keys - rest + ({cat} + (rest - {cat})) == cats.Keys;
  }

  lemma {:induction false} VisitOne(cats: Cats, order: seq<string>, cat: string, rest: set<string>)
    requires IsOrder(order, cats.Keys - rest) && cat in rest && rest <= cats.Keys
    ensures IsOrder(order + [cat], cats.Keys - (rest - {cat}))
    ensures LastCatchAll(cats, order + [cat]) == if "*" in cats[cat] then cat else LastCatchAll(cats, order)
  {
    OrdersConcatenate(order, cats.Keys - rest, [cat], {cat});
    assert cats.Keys - rest + {cat} == cats.Keys - (rest - {cat});
    assert (order + [cat])[..|order|] == order;
  }

  lemma ExplicitMeans(lib: Lib, cats: Cats, ext: string)
    ensures (exists c, e :: c in cats && e in cats[c] && e != "*" && lib.lower(e) == ext) <==>
            exists c :: c in cats && Explicit(lib, cats[c], ext)
  {
    if c :| c in cats && Explicit(lib, cats[c], ext) {
      var e :| e in cats[c] && e != "*" && lib.lower(e) == ext;
    }
  }

  lemma {:induction false} LastCatchAllIs(cats: Cats, order: seq<string>)
    requires forall c :: c in order ==> c in cats
    ensures var c := LastCatchAll(cats, order);
      if c != "" then c in cats && "*" in cats[c]
      else ("" in cats && "*" in cats[""]) || forall d :: d in order ==> "*" !in cats[d]
  {
    if order != [] { LastCatchAllIs(cats, order[..|order| - 1]); }
  }

  method Categorize(lib: Lib, path: string, cats: Cats) returns (r: Option<string>)
    ensures exists order ::
      IsOrder(order, cats.Keys) && r == CategorizeIn(lib, cats, order, lib.lower(lib.ext(path)), "")
    ensures (exists c, e :: c in cats && e in cats[c] && e != "*" && lib.lower(e) == lib.lower(lib.ext(path))) ==>
      && r.Some? && r.value in cats
      && exists e :: e in cats[r.value] && e != "*" && lib.lower(e) == lib.lower(lib.ext(path))
    ensures !(exists c, e :: c in cats && e in cats[c] && e != "*" && lib.lower(e) == lib.lower(lib.ext(path))) ==>
      if r.Some? then r.value != "" && r.value in cats && "*" in cats[r.value]
      else ("" in cats && "*" in cats[""]) || forall c :: c in cats ==> "*" !in cats[c]
  {
    var ext := lib.lower(lib.ext(path));
    var catchAll := "";
    var rest := cats.Keys;
    ghost var order: seq<string> := [];
    while rest != {}
      invariant rest <= cats.Keys && IsOrder(order, cats.Keys - rest)
      invariant forall c :: c in order ==> !Explicit(lib, cats[c], ext)
      invariant catchAll == LastCatchAll(cats, order)
      decreases |rest|
    {
      var cat :| cat in rest;
      var explicit, star := ListsExtension(lib, cats[cat], ext);
      if explicit {
        ExplicitEndsVisit(lib, cats, order, cat, rest, ext);
        ExplicitMeans(lib, cats, ext);
        return Some(cat);
      }
      VisitOne(cats, order, cat, rest);
      order := order + [cat];
      rest := rest - {cat};
      if star { catchAll := cat; }
    }
    VisitAppend(lib, cats, order, [], ext);
    assert order + [] == order;
    ExplicitMeans(lib, cats, ext);
    LastCatchAllIs(cats, order);
    r := if catchAll != "" then Some(catchAll) else None;
  }

  /** The inner loop: does the category list the extension, and did it list "*" up to that point. */
  method ListsExtension(lib: Lib, exts: seq<string>, ext: string) returns (explicit: bool, star: bool)
    ensures explicit <==> Explicit(lib, exts, ext)
    ensures !explicit ==> (star <==> "*" in exts)
  {
    explicit, star := false, false;
    for j := 0 to |exts|
      invariant !explicit && forall k :: 0 <= k < j ==> exts[k] == "*" || lib.lower(exts[k]) != ext
      invariant star <==> "*" in exts[..j]
    {
      assert exts[..j + 1] == exts[..j] + [exts[j]];
      if exts[j] == "*" {
        star := true;
      } else if lib.lower(exts[j]) == ext {
        return true, star;
      }
    }
    assert exts[..|exts|] == exts;
  }

  lemma OrdersConcatenate(o1: seq<string>, k1: set<string>, o2: seq<string>, k2: set<string>)
    requires IsOrder(o1, k1) && IsOrder(o2, k2) && k1 !! k2
    ensures IsOrder(o1 + o2, k1 + k2)
  {
    forall i, j | 0 <= i < j < |o1 + o2| ensures (o1 + o2)[i] != (o1 + o2)[j] {
      if i < |o1| <= j { assert o1[i] in k1 && o2[j - |o1|] in k2; }
    }
  }

  lemma SomeOrder(keys: set<string>) returns (order: seq<string>)
    ensures IsOrder(order, keys)
  {
    if keys == {} {
      order := [];
    } else {
      var c :| c in keys;
      var rest := SomeOrder(keys - {c});
      order := [c] + rest;
    }
  }

  lemma {:induction false} OrderIsLegit(lib: Lib, cats: Cats, order: seq<string>, ext: string, catchAll: string)
    requires forall c :: c in order ==> c in cats
    ensures var r := CategorizeIn(lib, cats, order, ext, catchAll);
      if exists c :: c in order && Explicit(lib, cats[c], ext) then
        r.Some? && r.value in order && Explicit(lib, cats[r.value], ext)
      else if exists c :: c in order && "*" in cats[c] then
        (if r.Some? then r.value != "" && r.value in order && "*" in cats[r.value] else "" in order && "*" in cats[""])
      else r == if catchAll != "" then Some(catchAll) else None
  {
    if order != [] && !Explicit(lib, cats[order[0]], ext) {
      OrderIsLegit(lib, cats, order[1..], ext, if "*" in cats[order[0]] then order[0] else catchAll);
      assert forall c :: c in order <==> c == order[0] || c in order[1..];
    }
  }

  /** Every order gives a legitimate answer. */
  lemma {:induction false} CategorizeIsLegit(lib: Lib, cats: Cats, order: seq<string>, ext: string)
    requires IsOrder(order, cats.Keys)
    ensures Legit(lib, cats, ext, CategorizeIn(lib, cats, order, ext, ""))
  {
    OrderIsLegit(lib, cats, order, ext, "");
    if c :| c in order && Explicit(lib, cats[c], ext) { assert c in Explicits(lib, cats, ext); }
    if c :| c in order && "*" in cats[c] { assert c in CatchAlls(cats); }
  }

  lemma {:induction false} LastCatchAllWins(lib: Lib, cats: Cats, order: seq<string>, c: string, ext: string,
                                            catchAll: string)
    requires c in cats && "*" in cats[c] && !Explicit(lib, cats[c], ext)
    requires forall k :: k in order ==> k in cats && !Explicit(lib, cats[k], ext)
    ensures CategorizeIn(lib, cats, order + [c], ext, catchAll) == if c != "" then Some(c) else None
  {
    if order == [] {
      assert (order + [c])[1..] == [];
    } else {
      assert (order + [c])[1..] == order[1..] + [c];
      LastCatchAllWins(lib, cats, order[1..], c, ext, if "*" in cats[order[0]] then order[0] else catchAll);
    }
  }

  /** Every legitimate answer is the answer of some order. */
  lemma {:induction false} LegitIsReached(lib: Lib, cats: Cats, ext: string, r: Option<string>)
    requires Legit(lib, cats, ext, r)
    ensures exists order :: IsOrder(order, cats.Keys) && CategorizeIn(lib, cats, order, ext, "") == r
  {
    if Explicits(lib, cats, ext) != {} {
      var rest := SomeOrder(cats.Keys - {r.value});
      assert IsOrder([r.value] + rest, cats.Keys);
    } else if CatchAlls(cats) != {} {
      var c := if r.Some? then r.value else "";
      var rest := SomeOrder(cats.Keys - {c});
      forall k | k in cats ensures !Explicit(lib, cats[k], ext) { assert k !in Explicits(lib, cats, ext); }
      LastCatchAllWins(lib, cats, rest, c, ext, "");
      assert IsOrder(rest + [c], cats.Keys);
    } else {
      var order := SomeOrder(cats.Keys);
      CategorizeIsLegit(lib, cats, order, ext);
    }
  }

  ghost predicate Unambiguous(lib: Lib, cats: Cats, ext: string) {
    && (forall c, d :: c in Explicits(lib, cats, ext) && d in Explicits(lib, cats, ext) ==> c == d)
    && (Explicits(lib, cats, ext) == {} ==> forall c, d :: c in CatchAlls(cats) && d in CatchAlls(cats) ==> c == d)
  }

  lemma UnambiguousIffOneLegit(lib: Lib, cats: Cats, ext: string)
    ensures Unambiguous(lib, cats, ext) <==>
            forall r1, r2 :: Legit(lib, cats, ext, r1) && Legit(lib, cats, ext, r2) ==> r1 == r2
  {
    if forall r1, r2 :: Legit(lib, cats, ext, r1) && Legit(lib, cats, ext, r2) ==> r1 == r2 {
      forall c, d | c in Explicits(lib, cats, ext) && d in Explicits(lib, cats, ext) ensures c == d {
        assert Legit(lib, cats, ext, Some(c)) && Legit(lib, cats, ext, Some(d));
      }
      if Explicits(lib, cats, ext) == {} {
        forall c, d | c in CatchAlls(cats) && d in CatchAlls(cats) ensures c == d {
          var rc: Option<string> := if c == "" then None else Some(c);
          var rd: Option<string> := if d == "" then None else Some(d);
          assert Legit(lib, cats, ext, rc) && Legit(lib, cats, ext, rd);
        }
      }
    }
  }

  ghost predicate OrderIndependent(lib: Lib, cats: Cats, ext: string) {
    forall o1, o2 :: IsOrder(o1, cats.Keys) && IsOrder(o2, cats.Keys) ==>
      CategorizeIn(lib, cats, o1, ext, "") == CategorizeIn(lib, cats, o2, ext, "")
  }

  /** The answer does not depend on the visiting order exactly when at most one category lists the
      extension and, if none does, at most one is a catch-all. */
  lemma OrderIndependentIffUnambiguous(lib: Lib, cats: Cats, ext: string)
    ensures OrderIndependent(lib, cats, ext) <==> Unambiguous(lib, cats, ext)
  {
    UnambiguousIffOneLegit(lib, cats, ext);
    forall o | IsOrder(o, cats.Keys) ensures Legit(lib, cats, ext, CategorizeIn(lib, cats, o, ext, "")) {
      CategorizeIsLegit(lib, cats, o, ext);
    }
    forall r | Legit(lib, cats, ext, r)
      ensures exists o :: IsOrder(o, cats.Keys) && CategorizeIn(lib, cats, o, ext, "") == r
    {
      LegitIsReached(lib, cats, ext, r);
    }
  }
}
