/**
 * The crystal counter of the workshop-parts report: a demand for a part is
 * expanded through the recipe catalog like the gathering list, but only base
 * ingredients whose gathering method is "crystal" are kept. Crystals reached
 * through a cell with several '|'-separated options are alternatives and are
 * tagged " (alt)" each time they pass such a cell; the result is rendered as
 * "A x 2 & B x 1 | C x 1".
 */
module CrystalCount {
  import opened Optional
  import opened Text
  import opened Tallies
  import opened Recipes
  import opened Requirements

  /** The tag added to the keys merged from a cell with several options. */
  const Alt: string := " (alt)"

  // ------------------------------------------------------ gathering methods

  /** Ingredient name to gathering-method cell, from the gathering rows
      (column 0 the ingredient, column 1 the method). */
  type MethodMap = map<string, Option<string>>

  /** The dict comprehension over the gathering rows: one key for each
      ingredient named, holding the method of the last row naming it. */
  function MethodMapOf(rows: seq<Row>): (r: MethodMap)
    ensures forall k :: k in r <==> exists i :: 0 <= i < |rows| && Column(rows[i], 0) == Some(k)
  {
    if rows == [] then map[]
    else
      var front := rows[..|rows| - 1];
      var m := MethodMapOf(front);
      assert forall i :: 0 <= i < |front| ==> front[i] == rows[i];
      match Column(rows[|rows| - 1], 0)
      case None => m
      case Some(k) => m[k := Column(rows[|rows| - 1], 1)]
  }

  /** A later row for the same ingredient replaces an earlier one. */
  lemma {:induction false} MethodMapLast(rows: seq<Row>, i: nat)
    requires i < |rows| && Column(rows[i], 0).Some?
    requires forall j :: i < j < |rows| ==> Column(rows[j], 0) != Column(rows[i], 0)
    ensures Column(rows[i], 0).value in MethodMapOf(rows)
    ensures MethodMapOf(rows)[Column(rows[i], 0).value] == Column(rows[i], 1)
  {
    var front := rows[..|rows| - 1];
    if i < |rows| - 1 {
      assert front[i] == rows[i];
      forall j | i < j < |front| ensures Column(front[j], 0) != Column(front[i], 0) {
        assert front[j] == rows[j];
      }
      MethodMapLast(front, i);
    }
  }

  /** method_map.get(item, "").lower() == "crystal": the gathering method
      of `item` is "crystal" in any capitalisation. */
  predicate IsCrystal(methods: MethodMap, item: string): (b: bool)
    ensures b <==> item in methods && methods[item].Some? && CaselessEq(methods[item].value, "crystal")
  {
    if item in methods && methods[item].Some? then
      LowerMatches(methods[item].value, "crystal");
      Lower(methods[item].value) == "crystal"
    else false
  }

  // --------------------------------------------------- the crystal counter

  /** compute_crystals(item, m): the crystals needed for `m` of `item`, keyed
      by crystal name with one " (alt)" per multi-option cell passed. */
  function Crystals(book: Catalog, ghost rank: map<string, nat>, methods: MethodMap, item: string, m: real): (r: Tally)
    requires Ranked(book, rank)
    ensures Distinct(r)
    decreases Height(book, rank, item), 2, 0
  {
    if item in book then CrystalsOfEntries(book, rank, methods, item, book[item], m)
    else if IsCrystal(methods, item) then [(item, m)]
    else []
  }

  /** The totals after the entries `ings` of `parent` have been merged in. A
      cell with one option merges that option's totals under their own keys;
      a cell with several splits the demand evenly and merges each option's
      totals under tagged keys. */
  function CrystalsOfEntries(book: Catalog, ghost rank: map<string, nat>, methods: MethodMap, parent: string,
                             ings: seq<Ingredient>, m: real): (r: Tally)
    requires Ranked(book, rank) && OutranksOptions(book, rank, parent, ings)
    ensures Distinct(r)
    decreases Height(book, rank, parent), 1, |ings|
  {
    if ings == [] then []
    else
      var acc := CrystalsOfEntries(book, rank, methods, parent, ings[..|ings| - 1], m);
      var ing := ings[|ings| - 1];
      var opts := Options(ing.cell);
      assert forall o :: o in opts ==> Height(book, rank, o) < Height(book, rank, parent) by {
        assert ing in ings;
      }
      if |opts| == 1 then Merge(acc, Crystals(book, rank, methods, opts[0], Times(ing.qty, m)), "")
      else CrystalsOfOptions(book, rank, methods, parent, acc, opts, Share(ing.qty, m, |opts|))
  }

  /** The totals `acc` after each option of `opts`, demanded at `share`, has
      been merged in under tagged keys. */
  function CrystalsOfOptions(book: Catalog, ghost rank: map<string, nat>, methods: MethodMap, parent: string,
                             acc: Tally, opts: seq<string>, share: real): (r: Tally)
    requires Ranked(book, rank)
    requires forall o :: o in opts ==> Height(book, rank, o) < Height(book, rank, parent)
    ensures Distinct(acc) ==> Distinct(r)
    decreases Height(book, rank, parent), 0, |opts|
  {
    if opts == [] then acc
    else
      Merge(CrystalsOfOptions(book, rank, methods, parent, acc, opts[..|opts| - 1], share),
            Crystals(book, rank, methods, opts[|opts| - 1], share), Alt)
  }

  // ------------------------------------------- crystals are tagged leaves

  /** A key with its trailing " (alt)" tags removed. */
  function Base(k: string): string
    decreases |k|
  {
    if EndsWith(k, Alt) then Base(k[..|k| - |Alt|]) else k
  }

  lemma BaseTagged(k: string, suffix: string)
    requires suffix == "" || suffix == Alt
    ensures Base(k + suffix) == Base(k)
  {
    if suffix == "" {
      assert k + suffix == k;
    } else {
      assert (k + suffix)[..|k|] == k;
    }
  }

  /** The total held under keys whose base is `c`. */
  function Weight(t: Tally, c: string): real {
    if t == [] then 0.0 else (if Base(t[0].0) == c then t[0].1 else 0.0) + Weight(t[1..], c)
  }

  /** The total contributed by crystal leaves whose base is `c`. */
  function CrystalMass(methods: MethodMap, t: Tally, c: string): real {
    if t == [] then 0.0
    else (if IsCrystal(methods, t[0].0) && Base(t[0].0) == c then t[0].1 else 0.0) + CrystalMass(methods, t[1..], c)
  }

  lemma {:induction false} CrystalMassAppend(methods: MethodMap, xs: Tally, ys: Tally, c: string)
    ensures CrystalMass(methods, xs + ys, c) == CrystalMass(methods, xs, c) + CrystalMass(methods, ys, c)
  {
    if xs == [] {
      assert xs + ys == ys;
    } else {
      assert (xs + ys)[1..] == xs[1..] + ys;
      CrystalMassAppend(methods, xs[1..], ys, c);
    }
  }

  lemma {:induction false} WeightAdd(t: Tally, k: string, v: real, c: string)
    ensures Weight(Add(t, k, v), c) == Weight(t, c) + (if Base(k) == c then v else 0.0)
  {
    if t != [] && t[0].0 != k {
      var r := [t[0]] + Add(t[1..], k, v);
      assert r[1..] == Add(t[1..], k, v);
      WeightAdd(t[1..], k, v, c);
    }
  }

  /** Merging, with or without the tag, adds the merged weight. */
  lemma {:induction false} WeightMerge(acc: Tally, sub: Tally, suffix: string, c: string)
    requires suffix == "" || suffix == Alt
    ensures Weight(Merge(acc, sub, suffix), c) == Weight(acc, c) + Weight(sub, c)
    decreases |sub|
  {
    if sub != [] {
      var next := Add(acc, sub[0].0 + suffix, sub[0].1);
      WeightAdd(acc, sub[0].0 + suffix, sub[0].1, c);
      BaseTagged(sub[0].0, suffix);
      WeightMerge(next, sub[1..], suffix, c);
    }
  }

  lemma ShareOne(qty: real, m: real)
    ensures Share(qty, m, 1) == Times(qty, m)
  {
  }

  /** Once the tags are removed, the crystal totals are exactly what the
      crystal leaves of the expansion contribute: every crystal leaf is
      counted with the multiplier it arrives with, and nothing else is. */
  lemma {:induction false} CrystalsWeight(book: Catalog, rank: map<string, nat>, methods: MethodMap, item: string, m: real, c: string)
    requires Ranked(book, rank)
    ensures Weight(Crystals(book, rank, methods, item, m), c) == CrystalMass(methods, Leaves(book, rank, item, m), c)
    decreases Height(book, rank, item), 2, 0
  {
    if item in book {
      EntriesWeight(book, rank, methods, item, book[item], m, c);
    }
  }

  lemma {:induction false} EntriesWeight(book: Catalog, rank: map<string, nat>, methods: MethodMap, parent: string,
                                          ings: seq<Ingredient>, m: real, c: string)
    requires Ranked(book, rank) && OutranksOptions(book, rank, parent, ings)
    ensures Weight(CrystalsOfEntries(book, rank, methods, parent, ings, m), c)
         == CrystalMass(methods, EntryLeaves(book, rank, parent, ings, m), c)
    decreases Height(book, rank, parent), 1, |ings|
  {
    if ings != [] {
      var front := ings[..|ings| - 1];
      var ing := ings[|ings| - 1];
      var opts := Options(ing.cell);
      var share := Share(ing.qty, m, |opts|);
      OutranksPrefix(book, rank, parent, ings, |ings| - 1);
      EntryLeavesLast(book, rank, parent, ings, m);
      var acc := CrystalsOfEntries(book, rank, methods, parent, front, m);
      EntriesWeight(book, rank, methods, parent, front, m, c);
      CrystalMassAppend(methods, EntryLeaves(book, rank, parent, front, m), OptionLeaves(book, rank, parent, opts, share), c);
      if |opts| == 1 {
        OneOptionWeight(book, rank, methods, parent, acc, opts, ing.qty, m, c);
      } else {
        OptionsWeight(book, rank, methods, parent, acc, opts, share, c);
      }
    }
  }

  lemma OneOptionWeight(book: Catalog, rank: map<string, nat>, methods: MethodMap, parent: string,
                        acc: Tally, opts: seq<string>, qty: real, m: real, c: string)
    requires Ranked(book, rank) && |opts| == 1
    requires forall o :: o in opts ==> Height(book, rank, o) < Height(book, rank, parent)
    ensures Weight(Merge(acc, Crystals(book, rank, methods, opts[0], Times(qty, m)), ""), c)
         == Weight(acc, c) + CrystalMass(methods, OptionLeaves(book, rank, parent, opts, Share(qty, m, 1)), c)
    decreases Height(book, rank, parent), 0, 1
  {
    ShareOne(qty, m);
    var sub := Crystals(book, rank, methods, opts[0], Times(qty, m));
    WeightMerge(acc, sub, "", c);
    CrystalsWeight(book, rank, methods, opts[0], Times(qty, m), c);
    OptionLeavesLast(book, rank, parent, opts, Share(qty, m, 1));
    assert opts[..0] == [];
    var leaves := Leaves(book, rank, opts[0], Times(qty, m));
    assert OptionLeaves(book, rank, parent, opts, Share(qty, m, 1)) == [] + leaves;
    assert [] + leaves == leaves;
  }

  lemma {:induction false} OptionsWeight(book: Catalog, rank: map<string, nat>, methods: MethodMap, parent: string,
                                          acc: Tally, opts: seq<string>, share: real, c: string)
    requires Ranked(book, rank)
    requires forall o :: o in opts ==> Height(book, rank, o) < Height(book, rank, parent)
    ensures Weight(CrystalsOfOptions(book, rank, methods, parent, acc, opts, share), c)
         == Weight(acc, c) + CrystalMass(methods, OptionLeaves(book, rank, parent, opts, share), c)
    decreases Height(book, rank, parent), 0, |opts|
  {
    if opts != [] {
      var front := opts[..|opts| - 1];
      var o := opts[|opts| - 1];
      assert forall x :: x in front ==> x in opts;
      OptionsWeight(book, rank, methods, parent, acc, front, share, c);
      WeightMerge(CrystalsOfOptions(book, rank, methods, parent, acc, front, share),
                  Crystals(book, rank, methods, o, share), Alt, c);
      CrystalsWeight(book, rank, methods, o, share, c);
      CrystalMassAppend(methods, OptionLeaves(book, rank, parent, front, share), Leaves(book, rank, o, share), c);
    }
  }

  // ----------------------------------------------- how one entry merges

  /** A cell with a single option adds that option's totals under the same
      keys. */
  lemma OneOptionAdds(book: Catalog, rank: map<string, nat>, methods: MethodMap, parent: string,
                      ings: seq<Ingredient>, m: real, k: string)
    requires Ranked(book, rank) && OutranksOptions(book, rank, parent, ings) && ings != []
    requires |Options(ings[|ings| - 1].cell)| == 1
    ensures var ing := ings[|ings| - 1];
      Height(book, rank, Options(ing.cell)[0]) < Height(book, rank, parent)
      && Get(CrystalsOfEntries(book, rank, methods, parent, ings, m), k)
         == Get(CrystalsOfEntries(book, rank, methods, parent, ings[..|ings| - 1], m), k)
            + Get(Crystals(book, rank, methods, Options(ing.cell)[0], Times(ing.qty, m)), k)
  {
    var ing := ings[|ings| - 1];
    var o := Options(ing.cell)[0];
    assert ing in ings && o in Options(ing.cell);
    OutranksPrefix(book, rank, parent, ings, |ings| - 1);
    var sub := Crystals(book, rank, methods, o, Times(ing.qty, m));
    var acc := CrystalsOfEntries(book, rank, methods, parent, ings[..|ings| - 1], m);
    MergeGet(acc, sub, "", k);
    assert k + "" == k;
    SumOfDistinct(sub, k);
  }

  /** The sum, over the options `opts` at `share`, of what each holds under
      `k`. */
  function AltSum(book: Catalog, ghost rank: map<string, nat>, methods: MethodMap, parent: string,
                  opts: seq<string>, share: real, k: string): real
    requires Ranked(book, rank)
    requires forall o :: o in opts ==> Height(book, rank, o) < Height(book, rank, parent)
  {
    if opts == [] then 0.0
    else
      AltSum(book, rank, methods, parent, opts[..|opts| - 1], share, k)
        + Get(Crystals(book, rank, methods, opts[|opts| - 1], share), k)
  }

  /** Several options add, under `k` + " (alt)", what the options hold under
      `k`, and leave every key without the tag alone. */
  lemma {:induction false} SeveralOptionsAdd(book: Catalog, rank: map<string, nat>, methods: MethodMap, parent: string,
                                              acc: Tally, opts: seq<string>, share: real, k: string)
    requires Ranked(book, rank)
    requires forall o :: o in opts ==> Height(book, rank, o) < Height(book, rank, parent)
    ensures Get(CrystalsOfOptions(book, rank, methods, parent, acc, opts, share), k + Alt)
         == Get(acc, k + Alt) + AltSum(book, rank, methods, parent, opts, share, k)
    ensures !EndsWith(k, Alt) ==> Get(CrystalsOfOptions(book, rank, methods, parent, acc, opts, share), k) == Get(acc, k)
    decreases |opts|
  {
    if opts != [] {
      var front := opts[..|opts| - 1];
      var o := opts[|opts| - 1];
      assert forall x :: x in front ==> x in opts;
      SeveralOptionsAdd(book, rank, methods, parent, acc, front, share, k);
      var prev := CrystalsOfOptions(book, rank, methods, parent, acc, front, share);
      var sub := Crystals(book, rank, methods, o, share);
      MergeGet(prev, sub, Alt, k);
      SumOfDistinct(sub, k);
      if !EndsWith(k, Alt) {
        MergeKeepsOthers(prev, sub, Alt, k);
      }
    }
  }

  // ------------------------------------------------------------ rendering

  /** int(v): truncation toward zero. */
  function Trunc(v: real): (r: int)
    ensures 0.0 <= v ==> r as real <= v < r as real + 1.0
    ensures v < 0.0 ==> r as real - 1.0 < v <= r as real
  {
    if v >= 0.0 then v.Floor else -((-v).Floor)
  }

  /** The name shown for a tagged key: every " (alt)" removed, then stripped. */
  function DisplayName(k: string): string {
    Strip(RemoveAll(k, Alt))
  }

  /** n tags in a row. */
  function Tags(n: nat): (r: string)
    ensures n > 0 ==> Alt <= r
  {
    if n == 0 then "" else Alt + Tags(n - 1)
  }

  lemma {:induction false} RemoveTags(n: nat)
    ensures RemoveAll(Tags(n), Alt) == ""
  {
    if n > 0 {
      assert Tags(n)[|Alt|..] == Tags(n - 1);
      RemoveTags(n - 1);
    }
  }

  /** Removing the tags from a tagged name without '(' gives the name back:
      no occurrence of " (alt)" can start inside the name. */
  lemma {:induction false} RemoveTagsAfter(x: string, n: nat)
    requires '(' !in x
    ensures RemoveAll(x + Tags(n), Alt) == x
  {
    var s := x + Tags(n);
    if x == [] {
      assert s == Tags(n);
      RemoveTags(n);
    } else {
      assert !(Alt <= s) by {
        if |s| >= |Alt| {
          if |x| >= 2 {
            assert s[1] == x[1];
          } else {
            assert s[1] == Tags(n)[0] == ' ';
          }
        }
      }
      assert s[1..] == x[1..] + Tags(n);
      RemoveTagsAfter(x[1..], n);
      assert [x[0]] + x[1..] == x;
    }
  }

  /** A crystal name without '(' that has passed `n` multi-option cells is
      an alternative exactly when n > 0, and shows under its own name. */
  lemma TaggedShows(c: string, n: nat)
    requires '(' !in c
    ensures IsAlternative(c + Tags(n)) <==> n > 0
    ensures DisplayName(c + Tags(n)) == Strip(c)
  {
    RemoveTagsAfter(c, n);
    if n > 0 {
      assert Tags(n)[1..] == "(alt)" + Tags(n)[|Alt|..];
      assert Contains(Tags(n)[1..], "(alt)");
      assert Contains(Tags(n), "(alt)");
      ContainsAfter(c, Tags(n), "(alt)");
    } else {
      assert c + Tags(n) == c;
      if Contains(c, "(alt)") {
        ContainsFirst(c, "(alt)");
      }
    }
  }

  /** f"{name} x {int(v)}" */
  function Entry(name: string, v: real): string {
    name + " x " + IntStr(Trunc(v))
  }

  /** Keys containing "(alt)" are rendered as alternatives. */
  predicate IsAlternative(k: string) {
    Contains(k, "(alt)")
  }

  /** The `required` list built from the items `t`, in their order. */
  function Required(t: Tally): (r: seq<string>)
    ensures |r| <= |t|
    ensures forall i :: 0 <= i < |r| ==> r[i] != []
  {
    if t == [] then []
    else
      var last := t[|t| - 1];
      Required(t[..|t| - 1]) + (if IsAlternative(last.0) then [] else [Entry(last.0, last.1)])
  }

  /** The `alternatives` list built from the items `t`, in their order. */
  function Alternatives(t: Tally): (r: seq<string>)
    ensures |r| <= |t|
    ensures forall i :: 0 <= i < |r| ==> r[i] != []
  {
    if t == [] then []
    else
      var last := t[|t| - 1];
      Alternatives(t[..|t| - 1]) + (if IsAlternative(last.0) then [Entry(DisplayName(last.0), last.1)] else [])
  }

  /** The required entries joined by " & ", then the alternatives joined by
      " | ", each group only when non-empty, the two groups joined by " & ". */
  function Rendered(t: Tally): string {
    var req := Required(t);
    var alts := Alternatives(t);
    Join((if req == [] then [] else [Join(req, " & ")]) + (if alts == [] then [] else [Join(alts, " | ")]), " & ")
  }

  /** The rendering loop over crystals_needed.items(). */
  method Render(t: Tally) returns (s: string)
    ensures s == Rendered(t)
  {
    var required: seq<string> := [];
    var alternatives: seq<string> := [];
    for i := 0 to |t|
      invariant required == Required(t[..i])
      invariant alternatives == Alternatives(t[..i])
    {
      assert t[..i + 1][..i] == t[..i];
      var (k, v) := t[i];
      if IsAlternative(k) {
        alternatives := alternatives + [Entry(DisplayName(k), v)];
      } else {
        required := required + [Entry(k, v)];
      }
    }
    assert t[..|t|] == t;
    var combined: seq<string> := [];
    if required != [] {
      combined := combined + [Join(required, " & ")];
    }
    if alternatives != [] {
      combined := combined + [Join(alternatives, " | ")];
    }
    s := Join(combined, " & ");
  }

  /** Every item is split off into exactly one of the two lists. */
  lemma {:induction false} ListsPartition(t: Tally)
    ensures |Required(t)| + |Alternatives(t)| == |t|
  {
    if t != [] {
      ListsPartition(t[..|t| - 1]);
    }
  }

  /** The rendering is empty exactly when no crystal is needed. */
  lemma RenderedEmpty(t: Tally)
    ensures Rendered(t) == "" <==> t == []
  {
    ListsPartition(t);
  }

  lemma {:induction false} RequiredHas(t: Tally, i: nat)
    requires i < |t| && !IsAlternative(t[i].0)
    ensures Entry(t[i].0, t[i].1) in Required(t)
  {
    if i < |t| - 1 {
      RequiredHas(t[..|t| - 1], i);
    }
  }

  lemma {:induction false} AlternativesHas(t: Tally, i: nat)
    requires i < |t| && IsAlternative(t[i].0)
    ensures Entry(DisplayName(t[i].0), t[i].1) in Alternatives(t)
  {
    if i < |t| - 1 {
      AlternativesHas(t[..|t| - 1], i);
    }
  }

  lemma OccursWithin(s: string, mid: string, sub: string)
    requires Occurs(s, mid) && Occurs(mid, sub)
    ensures Occurs(s, sub)
  {
    var a :| OccursAt(s, mid, a);
    var b :| OccursAt(mid, sub, b);
    forall i | 0 <= i < |sub| ensures s[a + b..a + b + |sub|][i] == sub[i] {
      assert sub[i] == mid[b..b + |sub|][i] == mid[b + i];
      assert mid[b + i] == s[a..a + |mid|][b + i];
    }
    assert OccursAt(s, sub, a + b);
  }

  /** Every crystal needed shows in the rendering: a key without "(alt)" as
      itself, a tagged key under its display name, each with its count. */
  lemma RenderedShows(t: Tally, i: nat)
    requires i < |t|
    ensures !IsAlternative(t[i].0) ==> Occurs(Rendered(t), Entry(t[i].0, t[i].1))
    ensures IsAlternative(t[i].0) ==> Occurs(Rendered(t), Entry(DisplayName(t[i].0), t[i].1))
  {
    var req := Required(t);
    var alts := Alternatives(t);
    var groups := (if req == [] then [] else [Join(req, " & ")]) + (if alts == [] then [] else [Join(alts, " | ")]);
    if !IsAlternative(t[i].0) {
      RequiredHas(t, i);
      var j :| 0 <= j < |req| && req[j] == Entry(t[i].0, t[i].1);
      JoinHasElement(req, " & ", j);
      assert groups[0] == Join(req, " & ");
      JoinHasElement(groups, " & ", 0);
      OccursWithin(Rendered(t), Join(req, " & "), req[j]);
    } else {
      AlternativesHas(t, i);
      var j :| 0 <= j < |alts| && alts[j] == Entry(DisplayName(t[i].0), t[i].1);
      JoinHasElement(alts, " | ", j);
      var g := |groups| - 1;
      assert groups[g] == Join(alts, " | ");
      JoinHasElement(groups, " & ", g);
      OccursWithin(Rendered(t), Join(alts, " | "), alts[j]);
    }
  }

  /** One required crystal followed by one alternative: the two entries
      joined by " & ". */
  lemma RenderedPair(a: string, va: real, b: string, vb: real)
    requires !IsAlternative(a) && IsAlternative(b)
    ensures Rendered([(a, va), (b, vb)]) == Entry(a, va) + " & " + Entry(DisplayName(b), vb)
  {
    var t: seq<(string, real)> := [(a, va), (b, vb)];
    var first: seq<(string, real)> := [t[0]];
    assert t[..1] == first && first[..0] == [];
    var req := [Entry(a, va)];
    var alts := [Entry(DisplayName(b), vb)];
    assert Required(t) == req;
    assert Alternatives(t) == alts;
    var groups := [Join(req, " & "), Join(alts, " | ")];
    assert groups[1..] == [Join(alts, " | ")];
    assert Join(groups, " & ") == Entry(a, va) + " & " + Entry(DisplayName(b), vb);
  }
}
