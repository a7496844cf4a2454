/**
 * The gathering-list engine: a top-level demand for a product is expanded
 * through the recipe catalog down to base ingredients, a cell with several
 * '|'-separated options splitting its demand evenly among them, and every
 * base ingredient reached adds the multiplier it arrives with to a shared
 * running total. The totals are then joined with the gathering table.
 */
module Requirements {
  import opened Optional
  import opened Text
  import opened Tallies
  import opened Recipes

  // ------------------------------------------------------- specification

  /** The base-ingredient contributions, in visiting order, of expanding a
      demand for `m` of `item`: each leaf reached with the multiplier it
      arrives with. Catalog membership alone decides expansion. */
  ghost function Leaves(book: Catalog, rank: map<string, nat>, item: string, m: real): Tally
    requires Ranked(book, rank)
    decreases Height(book, rank, item), 2, 0
  {
    if item in book then EntryLeaves(book, rank, item, book[item], m) else [(item, m)]
  }

  /** The contributions of the ingredient entries `ings` of `parent`, for a
      demand of `m` of `parent`. */
  ghost function EntryLeaves(book: Catalog, rank: map<string, nat>, parent: string, ings: seq<Ingredient>, m: real): Tally
    requires Ranked(book, rank) && OutranksOptions(book, rank, parent, ings)
    decreases Height(book, rank, parent), 1, |ings|
  {
    if ings == [] then []
    else
      var ing := ings[|ings| - 1];
      var opts := Options(ing.cell);
      assert forall o :: o in opts ==> Height(book, rank, o) < Height(book, rank, parent) by {
        assert ing in ings;
      }
      EntryLeaves(book, rank, parent, ings[..|ings| - 1], m)
        + OptionLeaves(book, rank, parent, opts, Share(ing.qty, m, |opts|))
  }

  /** The contributions of the options `opts`, each demanded at `share`. */
  ghost function OptionLeaves(book: Catalog, rank: map<string, nat>, parent: string, opts: seq<string>, share: real): Tally
    requires Ranked(book, rank)
    requires forall o :: o in opts ==> Height(book, rank, o) < Height(book, rank, parent)
    decreases Height(book, rank, parent), 0, |opts|
  {
    if opts == [] then []
    else
      OptionLeaves(book, rank, parent, opts[..|opts| - 1], share)
        + Leaves(book, rank, opts[|opts| - 1], share)
  }

  /** The contributions of a list of top-level demands, one after the other. */
  ghost function DemandLeaves(book: Catalog, rank: map<string, nat>, demands: seq<(string, real)>): Tally
    requires Ranked(book, rank)
  {
    if demands == [] then []
    else
      var d := demands[|demands| - 1];
      DemandLeaves(book, rank, demands[..|demands| - 1]) + Leaves(book, rank, d.0, d.1)
  }

  /** One more entry: the contributions of `ings` are those of all but its
      last entry followed by those of the last entry's options. */
  lemma EntryLeavesLast(book: Catalog, rank: map<string, nat>, parent: string, ings: seq<Ingredient>, m: real)
    requires Ranked(book, rank) && OutranksOptions(book, rank, parent, ings) && ings != []
    ensures var opts := Options(ings[|ings| - 1].cell);
      && (forall o :: o in opts ==> Height(book, rank, o) < Height(book, rank, parent))
      && EntryLeaves(book, rank, parent, ings, m)
         == EntryLeaves(book, rank, parent, ings[..|ings| - 1], m)
            + OptionLeaves(book, rank, parent, opts, Share(ings[|ings| - 1].qty, m, |opts|))
  {
    assert ings[|ings| - 1] in ings;
  }

  lemma OptionLeavesLast(book: Catalog, rank: map<string, nat>, parent: string, opts: seq<string>, share: real)
    requires Ranked(book, rank) && opts != []
    requires forall o :: o in opts ==> Height(book, rank, o) < Height(book, rank, parent)
    ensures OptionLeaves(book, rank, parent, opts, share)
         == OptionLeaves(book, rank, parent, opts[..|opts| - 1], share) + Leaves(book, rank, opts[|opts| - 1], share)
  {
  }

  /** One more entry, as the engine's outer loop takes it. */
  lemma EntriesStep(book: Catalog, rank: map<string, nat>, parent: string, ings: seq<Ingredient>, i: nat, m: real)
    requires Ranked(book, rank) && parent in book && ings == book[parent] && i < |ings|
    ensures var opts := Options(ings[i].cell);
      && (forall o :: o in opts ==> Height(book, rank, o) < Height(book, rank, parent))
      && EntryLeaves(book, rank, parent, ings[..i + 1], m)
         == EntryLeaves(book, rank, parent, ings[..i], m) + OptionLeaves(book, rank, parent, opts, Share(ings[i].qty, m, |opts|))
  {
    assert OutranksOptions(book, rank, parent, ings);
    OutranksPrefix(book, rank, parent, ings, i + 1);
    assert ings[..i + 1][..i] == ings[..i] && ings[..i + 1][i] == ings[i];
    EntryLeavesLast(book, rank, parent, ings[..i + 1], m);
  }

  lemma OutranksPrefix(book: Catalog, rank: map<string, nat>, parent: string, ings: seq<Ingredient>, k: nat)
    requires OutranksOptions(book, rank, parent, ings) && k <= |ings|
    ensures OutranksOptions(book, rank, parent, ings[..k])
  {
    assert forall ing :: ing in ings[..k] ==> ing in ings;
  }

  lemma OptionLeavesPrefix(book: Catalog, rank: map<string, nat>, parent: string, opts: seq<string>, share: real, j: nat)
    requires Ranked(book, rank) && j < |opts|
    requires forall o :: o in opts ==> Height(book, rank, o) < Height(book, rank, parent)
    ensures OptionLeaves(book, rank, parent, opts[..j + 1], share)
         == OptionLeaves(book, rank, parent, opts[..j], share) + Leaves(book, rank, opts[j], share)
  {
    var p := opts[..j + 1];
    assert p[..|p| - 1] == opts[..j] && p[|p| - 1] == opts[j];
    assert forall o :: o in p ==> o in opts;
  }

  /** One more option, as the engine's inner loop takes it. */
  lemma OptionsStep(book: Catalog, rank: map<string, nat>, parent: string, opts: seq<string>, share: real, j: nat, acc: Tally)
    requires Ranked(book, rank) && j < |opts|
    requires forall o :: o in opts ==> Height(book, rank, o) < Height(book, rank, parent)
    ensures Merge(Merge(acc, OptionLeaves(book, rank, parent, opts[..j], share), ""), Leaves(book, rank, opts[j], share), "")
         == Merge(acc, OptionLeaves(book, rank, parent, opts[..j + 1], share), "")
  {
    OptionLeavesPrefix(book, rank, parent, opts, share, j);
    MergeStep(acc, OptionLeaves(book, rank, parent, opts[..j], share), Leaves(book, rank, opts[j], share),
              OptionLeaves(book, rank, parent, opts[..j + 1], share), "");
  }

  // ------------------------------------------------------------ the engine

  /** The `requirements` defaultdict together with the recursive
      `compute_requirements` that adds to it. */
  class Expander {
    const book: Catalog
    ghost const rank: map<string, nat>
    var totals: Tally

    constructor (book: Catalog, ghost rank: map<string, nat>)
      requires Ranked(book, rank)
      ensures this.book == book && this.rank == rank && totals == []
    {
      this.book := book;
      this.rank := rank;
      totals := [];
    }

    /** compute_requirements(item, multiplier): every leaf reached adds its
        multiplier to the running totals. */
    method Expand(item: string, m: real)
      requires Ranked(book, rank)
      modifies this
      ensures totals == Merge(old(totals), Leaves(book, rank, item, m), "")
      decreases Height(book, rank, item), 1
    {
      if item in book {
        var ings := book[item];
        for i := 0 to |ings|
          invariant totals == Merge(old(totals), EntryLeaves(book, rank, item, ings[..i], m), "")
        {
          EntriesStep(book, rank, item, ings, i, m);
          ghost var done := EntryLeaves(book, rank, item, ings[..i], m);
          ExpandEntry(item, ings[i], m);
          MergeAppend(old(totals), done, OptionLeaves(book, rank, item, Options(ings[i].cell), Share(ings[i].qty, m, |Options(ings[i].cell)|)), "");
        }
        assert ings[..|ings|] == ings;
      } else {
        assert item + "" == item;
        totals := Add(totals, item, m);
      }
    }

    /** One pass of the ingredient loop of compute_requirements: the demand
        for `ing` is split evenly among its options, each expanded in turn. */
    method ExpandEntry(parent: string, ing: Ingredient, m: real)
      requires Ranked(book, rank)
      requires forall o :: o in Options(ing.cell) ==> Height(book, rank, o) < Height(book, rank, parent)
      modifies this
      ensures totals == Merge(old(totals), OptionLeaves(book, rank, parent, Options(ing.cell), Share(ing.qty, m, |Options(ing.cell)|)), "")
      decreases Height(book, rank, parent), 0
    {
      var opts := Options(ing.cell);
      var share := Share(ing.qty, m, |opts|);
      for j := 0 to |opts|
        invariant totals == Merge(old(totals), OptionLeaves(book, rank, parent, opts[..j], share), "")
      {
        assert opts[j] in opts;
        Expand(opts[j], share);
        OptionsStep(book, rank, parent, opts, share, j, old(totals));
      }
      assert opts[..|opts|] == opts;
    }
  }

  // ----------------------------------------------------- the gathering join

  /** The gathering row of `ing`: the first row whose column 0 holds it
      (ingredients are unique in the gathering table). */
  function FindGathering(gathering: seq<Row>, ing: string): (r: Option<Row>)
    ensures r.Some? ==> r.value in gathering && Column(r.value, 0) == Some(ing)
    ensures r.None? ==> forall row :: row in gathering ==> Column(row, 0) != Some(ing)
  {
    if gathering == [] then None
    else if Column(gathering[0], 0) == Some(ing) then Some(gathering[0])
    else FindGathering(gathering[1..], ing)
  }

  /** Is a location cell blank: empty, or whitespace only once stripped. */
  predicate Blank(cell: Option<string>) {
    cell.None? || Strip(cell.value) == ""
  }

  /** The stripped, non-blank location cells, in column order. */
  function LocationParts(cells: seq<Option<string>>): (r: seq<string>)
    ensures |r| <= |cells|
    ensures forall i :: 0 <= i < |r| ==> r[i] != "" && !IsSpace(r[i][0]) && !IsSpace(r[i][|r[i]| - 1])
    ensures r == [] <==> forall c :: c in cells ==> Blank(c)
  {
    if cells == [] then []
    else
      var rest := LocationParts(cells[1..]);
      assert forall c :: c in cells ==> c == cells[0] || c in cells[1..];
      if Blank(cells[0]) then rest else [Strip(cells[0].value)] + rest
  }

  /** Every non-blank cell contributes its stripped text. */
  lemma {:induction false} LocationPartsHas(cells: seq<Option<string>>, i: nat)
    requires i < |cells| && !Blank(cells[i])
    ensures Strip(cells[i].value) in LocationParts(cells)
  {
    if i > 0 {
      LocationPartsHas(cells[1..], i - 1);
    }
  }

  /** combine_location(row): the non-blank cells from column 2 on, stripped,
      joined with ", ". It is empty exactly when every such cell is blank,
      and never starts or ends with whitespace. */
  function CombineLocation(row: Row): (r: string)
    ensures r == "" <==> forall i :: 2 <= i < |row| ==> Blank(row[i])
    ensures r != "" ==> !IsSpace(r[0]) && !IsSpace(r[|r| - 1])
  {
    var cells := if |row| <= 2 then [] else row[2..];
    LocationCells(row);
    JoinedEnds(LocationParts(cells));
    Join(LocationParts(cells), ", ")
  }

  /** The location cells are all blank exactly when columns 2 on are. */
  lemma LocationCells(row: Row)
    ensures var cells := if |row| <= 2 then [] else row[2..];
      (forall c :: c in cells ==> Blank(c)) <==> forall i :: 2 <= i < |row| ==> Blank(row[i])
  {
    if |row| > 2 {
      var cells := row[2..];
      assert forall i :: 2 <= i < |row| ==> row[i] == cells[i - 2];
    }
  }

  /** Stripped non-empty parts joined with ", " give a stripped text, empty
      only when there are no parts. */
  lemma JoinedEnds(parts: seq<string>)
    requires forall i :: 0 <= i < |parts| ==> parts[i] != "" && !IsSpace(parts[i][0]) && !IsSpace(parts[i][|parts[i]| - 1])
    ensures var j := Join(parts, ", ");
      (j == "" <==> parts == []) && (j != "" ==> !IsSpace(j[0]) && !IsSpace(j[|j| - 1]))
  {
    JoinEnds(parts, ", ");
    if parts != [] {
      var j := Join(parts, ", ");
      var z := parts[|parts| - 1];
      assert j[0] == parts[0][0] && j[|j| - 1] == z[|z| - 1];
    }
  }

  /** Each non-blank location cell shows, stripped, in the combined text. */
  lemma CombineLocationShows(row: Row, i: nat)
    requires 2 <= i < |row| && !Blank(row[i])
    ensures Occurs(CombineLocation(row), Strip(row[i].value))
  {
    var cells := row[2..];
    assert cells[i - 2] == row[i];
    LocationPartsHas(cells, i - 2);
    var parts := LocationParts(cells);
    var j :| 0 <= j < |parts| && parts[j] == Strip(row[i].value);
    JoinHasElement(parts, ", ", j);
  }

  /** `row` is the one gathering row naming `ing`. */
  ghost predicate OnlyRowFor(gathering: seq<Row>, ing: string, row: Row) {
    && row in gathering && Column(row, 0) == Some(ing)
    && forall other :: other in gathering && Column(other, 0) == Some(ing) ==> other == row
  }

  /** One line of the gathering list. */
  datatype Need = Need(ingredient: string, total: real, gatherMethod: string, location: string)

  /** The Method column after the left merge: the gathering row's method,
      "unknown" when there is no row or its method cell is empty. */
  function MethodFor(gathering: seq<Row>, ing: string): (r: string)
    ensures (forall row :: row in gathering ==> Column(row, 0) != Some(ing)) ==> r == "unknown"
    ensures forall row :: OnlyRowFor(gathering, ing, row) ==> r == if Column(row, 1).Some? then Column(row, 1).value else "unknown"
  {
    match FindGathering(gathering, ing)
    case None => "unknown"
    case Some(row) => if Column(row, 1).Some? then Column(row, 1).value else "unknown"
  }

  /** The Location Info column after the left merge: "" when there is no row. */
  function LocationFor(gathering: seq<Row>, ing: string): (r: string)
    ensures (forall row :: row in gathering ==> Column(row, 0) != Some(ing)) ==> r == ""
    ensures forall row :: OnlyRowFor(gathering, ing, row) ==> r == CombineLocation(row)
  {
    match FindGathering(gathering, ing)
    case None => ""
    case Some(row) => CombineLocation(row)
  }

  /** The top_level dict comprehension over the rows (product, quantity)
      of the totals table, the quantity already converted by float(): a later
      row for the same product replaces the value and keeps the first
      position. */
  function TopLevel(rows: seq<(string, real)>): (r: Tally)
    ensures |r| <= |rows| && (r == [] <==> rows == [])
    ensures rows != [] ==> Get(r, rows[|rows| - 1].0) == rows[|rows| - 1].1
  {
    if rows == [] then []
    else
      var last := rows[|rows| - 1];
      Put(TopLevel(rows[..|rows| - 1]), last.0, last.1)
  }

  /** No product is held twice. */
  lemma {:induction false} TopLevelDistinct(rows: seq<(string, real)>)
    ensures Distinct(TopLevel(rows))
  {
    if rows != [] {
      TopLevelDistinct(rows[..|rows| - 1]);
    }
  }

  /** Some row names `k`. */
  ghost predicate Mentions(rows: seq<(string, real)>, k: string) {
    rows != [] && (Mentions(rows[..|rows| - 1], k) || rows[|rows| - 1].0 == k)
  }

  /** The table holds exactly the products named. */
  lemma {:induction false} TopLevelKeys(rows: seq<(string, real)>, k: string)
    ensures k in Keys(TopLevel(rows)) <==> Mentions(rows, k)
  {
    if rows != [] {
      var front := rows[..|rows| - 1];
      var last := rows[|rows| - 1];
      TopLevelKeys(front, k);
      var t := TopLevel(front);
      assert Keys(TopLevel(rows)) == if last.0 in Keys(t) then Keys(t) else Keys(t) + [last.0];
    }
  }

  /** The value kept for a product is that of the last row naming it. */
  lemma {:induction false} TopLevelLast(rows: seq<(string, real)>, i: nat)
    requires i < |rows|
    requires forall j :: i < j < |rows| ==> rows[j].0 != rows[i].0
    ensures Get(TopLevel(rows), rows[i].0) == rows[i].1
  {
    var front := rows[..|rows| - 1];
    if i < |rows| - 1 {
      assert front[i] == rows[i];
      forall j | i < j < |front| ensures front[j].0 != front[i].0 {
        assert front[j] == rows[j];
      }
      TopLevelLast(front, i);
    }
  }

  /** The top-level loop of generate_gathering_list: every top-level demand
      is expanded, in order, into one shared `requirements` table. */
  method ComputeRequirements(book: Catalog, ghost rank: map<string, nat>, topLevel: seq<(string, real)>)
    returns (totals: Tally)
    requires Ranked(book, rank)
    ensures totals == Merge([], DemandLeaves(book, rank, topLevel), "")
  {
    var requirements := new Expander(book, rank);
    for n := 0 to |topLevel|
      invariant requirements.book == book && requirements.rank == rank
      invariant requirements.totals == Merge([], DemandLeaves(book, rank, topLevel[..n]), "")
    {
      DemandsStep(book, rank, topLevel, n);
      MergeAppend([], DemandLeaves(book, rank, topLevel[..n]), Leaves(book, rank, topLevel[n].0, topLevel[n].1), "");
      requirements.Expand(topLevel[n].0, topLevel[n].1);
    }
    assert topLevel[..|topLevel|] == topLevel;
    totals := requirements.totals;
  }

  /** The requirements table as a data frame, left-merged with the gathering
      table (missing methods "unknown", missing locations "") and sorted by
      ingredient. */
  method JoinGathering(totals: Tally, gathering: seq<Row>) returns (out: seq<Need>)
    ensures forall i, j :: 0 <= i < j < |out| ==> StrLt(out[i].ingredient, out[j].ingredient)
    ensures forall k :: (exists i :: 0 <= i < |out| && out[i].ingredient == k) <==> k in Keys(totals)
    ensures forall i :: 0 <= i < |out| ==>
      && out[i].ingredient in Keys(totals)
      && out[i].total == Get(totals, out[i].ingredient)
      && out[i].gatherMethod == MethodFor(gathering, out[i].ingredient)
      && out[i].location == LocationFor(gathering, out[i].ingredient)
  {
    var names := SortStrings(set k | k in Keys(totals));
    out := seq(|names|, i requires 0 <= i < |names| =>
      Need(names[i], Get(totals, names[i]), MethodFor(gathering, names[i]), LocationFor(gathering, names[i])));
    forall i | 0 <= i < |out|
      ensures out[i].ingredient == names[i] && out[i].ingredient in Keys(totals)
      ensures out[i].total == Get(totals, out[i].ingredient)
      ensures out[i].gatherMethod == MethodFor(gathering, out[i].ingredient)
      ensures out[i].location == LocationFor(gathering, out[i].ingredient)
    {
      assert names[i] in names;
    }
    forall k | k in Keys(totals) ensures exists i :: 0 <= i < |out| && out[i].ingredient == k {
      assert k in names;
      var i :| 0 <= i < |names| && names[i] == k;
      assert out[i].ingredient == k;
    }
  }

  /** generate_gathering_list without its file I/O: one line per base
      ingredient the top-level demands reach, holding its total demand and
      its gathering method and location, sorted by ingredient. */
  method GatheringList(book: Catalog, ghost rank: map<string, nat>, totalRows: seq<(string, real)>, gathering: seq<Row>)
    returns (out: seq<Need>)
    requires Ranked(book, rank)
    ensures forall i, j :: 0 <= i < j < |out| ==> StrLt(out[i].ingredient, out[j].ingredient)
    ensures forall k :: (exists i :: 0 <= i < |out| && out[i].ingredient == k)
                    <==> k in Keys(DemandLeaves(book, rank, TopLevel(totalRows)))
    ensures forall i :: 0 <= i < |out| ==>
      && out[i].ingredient !in book
      && out[i].total == SumOf(DemandLeaves(book, rank, TopLevel(totalRows)), out[i].ingredient)
      && out[i].gatherMethod == MethodFor(gathering, out[i].ingredient)
      && out[i].location == LocationFor(gathering, out[i].ingredient)
  {
    var topLevel := TopLevel(totalRows);
    var totals := ComputeRequirements(book, rank, topLevel);
    ghost var leaves := DemandLeaves(book, rank, TopLevel(totalRows));
    Totals(leaves);
    DemandLeavesAreBase(book, rank, topLevel);
    out := JoinGathering(totals, gathering);
    forall i | 0 <= i < |out| ensures out[i].ingredient !in book {
      BaseKey(book, leaves, out[i].ingredient);
    }
  }

  /** A key of contributions that are all base ingredients has no recipe. */
  lemma BaseKey(book: Catalog, t: Tally, k: string)
    requires AllBase(book, t) && k in Keys(t)
    ensures k !in book
  {
    var j :| 0 <= j < |Keys(t)| && Keys(t)[j] == k;
    assert t[j].0 == k;
  }

  /** One more top-level demand. */
  lemma DemandsStep(book: Catalog, rank: map<string, nat>, demands: seq<(string, real)>, n: nat)
    requires Ranked(book, rank) && n < |demands|
    ensures DemandLeaves(book, rank, demands[..n + 1])
         == DemandLeaves(book, rank, demands[..n]) + Leaves(book, rank, demands[n].0, demands[n].1)
  {
    assert demands[..n + 1][..n] == demands[..n];
  }

  // ------------------------------------------------------------ properties

  /** `t` with every value multiplied by `c`. */
  function Scale(t: Tally, c: real): Tally {
    if t == [] then [] else [(t[0].0, Times(c, t[0].1))] + Scale(t[1..], c)
  }

  lemma {:induction false} ScaleAppend(xs: Tally, ys: Tally, c: real)
    ensures Scale(xs + ys, c) == Scale(xs, c) + Scale(ys, c)
  {
    if xs == [] {
      assert xs + ys == ys;
    } else {
      var head := [(xs[0].0, Times(c, xs[0].1))];
      assert (xs + ys)[0] == xs[0] && (xs + ys)[1..] == xs[1..] + ys;
      assert Scale(xs + ys, c) == head + Scale(xs[1..] + ys, c);
      ScaleAppend(xs[1..], ys, c);
      assert Scale(xs, c) == head + Scale(xs[1..], c);
    }
  }

  /** Expansion is linear: demanding c times as much of an item scales every
      leaf contribution by c, keeping names and order. */
  lemma {:induction false} LeavesScale(book: Catalog, rank: map<string, nat>, item: string, m: real, c: real)
    requires Ranked(book, rank)
    ensures Leaves(book, rank, item, Times(c, m)) == Scale(Leaves(book, rank, item, m), c)
    decreases Height(book, rank, item), 2, 0
  {
    if item in book {
      EntryLeavesScale(book, rank, item, book[item], m, c);
    } else {
      var t: Tally := [(item, m)];
      assert Scale(t, c) == [(t[0].0, Times(c, t[0].1))] + Scale(t[1..], c);
      assert t[1..] == [];
    }
  }

  lemma {:induction false} EntryLeavesScale(book: Catalog, rank: map<string, nat>, parent: string, ings: seq<Ingredient>, m: real, c: real)
    requires Ranked(book, rank) && OutranksOptions(book, rank, parent, ings)
    ensures EntryLeaves(book, rank, parent, ings, Times(c, m)) == Scale(EntryLeaves(book, rank, parent, ings, m), c)
    decreases Height(book, rank, parent), 1, |ings|
  {
    if ings != [] {
      var ing := ings[|ings| - 1];
      var opts := Options(ing.cell);
      assert ing in ings;
      var n := |opts|;
      ShareScales(ing.qty, m, c, n);
      EntryLeavesLast(book, rank, parent, ings, m);
      EntryLeavesLast(book, rank, parent, ings, Times(c, m));
      EntryLeavesScale(book, rank, parent, ings[..|ings| - 1], m, c);
      OptionLeavesScale(book, rank, parent, opts, Share(ing.qty, m, n), c);
      ScaleAppend(EntryLeaves(book, rank, parent, ings[..|ings| - 1], m),
                  OptionLeaves(book, rank, parent, opts, Share(ing.qty, m, n)), c);
    }
  }

  lemma {:induction false} OptionLeavesScale(book: Catalog, rank: map<string, nat>, parent: string, opts: seq<string>, share: real, c: real)
    requires Ranked(book, rank)
    requires forall o :: o in opts ==> Height(book, rank, o) < Height(book, rank, parent)
    ensures OptionLeaves(book, rank, parent, opts, Times(c, share)) == Scale(OptionLeaves(book, rank, parent, opts, share), c)
    decreases Height(book, rank, parent), 0, |opts|
  {
    if opts != [] {
      var o := opts[|opts| - 1];
      assert o in opts;
      OptionLeavesScale(book, rank, parent, opts[..|opts| - 1], share, c);
      OptionLeavesLast(book, rank, parent, opts, share);
      OptionLeavesLast(book, rank, parent, opts, Times(c, share));
      LeavesScale(book, rank, o, share, c);
      ScaleAppend(OptionLeaves(book, rank, parent, opts[..|opts| - 1], share), Leaves(book, rank, o, share), c);
    }
  }

  /** Only base ingredients (items the catalog has no recipe for) receive
      contributions. */
  ghost predicate AllBase(book: Catalog, t: Tally) {
    forall i :: 0 <= i < |t| ==> t[i].0 !in book
  }

  lemma AllBaseAppend(book: Catalog, xs: Tally, ys: Tally)
    requires AllBase(book, xs) && AllBase(book, ys)
    ensures AllBase(book, xs + ys)
  {
    assert forall i :: |xs| <= i < |xs + ys| ==> (xs + ys)[i] == ys[i - |xs|];
  }

  /** Expansion only ever stops at base ingredients. */
  lemma {:induction false} LeavesAreBase(book: Catalog, rank: map<string, nat>, item: string, m: real)
    requires Ranked(book, rank)
    ensures AllBase(book, Leaves(book, rank, item, m))
    decreases Height(book, rank, item), 2, 0
  {
    if item in book {
      EntryLeavesAreBase(book, rank, item, book[item], m);
    }
  }

  lemma {:induction false} EntryLeavesAreBase(book: Catalog, rank: map<string, nat>, parent: string, ings: seq<Ingredient>, m: real)
    requires Ranked(book, rank) && OutranksOptions(book, rank, parent, ings)
    ensures AllBase(book, EntryLeaves(book, rank, parent, ings, m))
    decreases Height(book, rank, parent), 1, |ings|
  {
    if ings != [] {
      var ing := ings[|ings| - 1];
      var opts := Options(ing.cell);
      EntryLeavesLast(book, rank, parent, ings, m);
      EntryLeavesAreBase(book, rank, parent, ings[..|ings| - 1], m);
      OptionLeavesAreBase(book, rank, parent, opts, Share(ing.qty, m, |opts|));
      AllBaseAppend(book, EntryLeaves(book, rank, parent, ings[..|ings| - 1], m),
                    OptionLeaves(book, rank, parent, opts, Share(ing.qty, m, |opts|)));
    }
  }

  lemma {:induction false} OptionLeavesAreBase(book: Catalog, rank: map<string, nat>, parent: string, opts: seq<string>, share: real)
    requires Ranked(book, rank)
    requires forall o :: o in opts ==> Height(book, rank, o) < Height(book, rank, parent)
    ensures AllBase(book, OptionLeaves(book, rank, parent, opts, share))
    decreases Height(book, rank, parent), 0, |opts|
  {
    if opts != [] {
      var o := opts[|opts| - 1];
      assert o in opts;
      OptionLeavesLast(book, rank, parent, opts, share);
      OptionLeavesAreBase(book, rank, parent, opts[..|opts| - 1], share);
      LeavesAreBase(book, rank, o, share);
      AllBaseAppend(book, OptionLeaves(book, rank, parent, opts[..|opts| - 1], share), Leaves(book, rank, o, share));
    }
  }

  lemma {:induction false} DemandLeavesAreBase(book: Catalog, rank: map<string, nat>, demands: seq<(string, real)>)
    requires Ranked(book, rank)
    ensures AllBase(book, DemandLeaves(book, rank, demands))
    decreases |demands|
  {
    if demands != [] {
      var d := demands[|demands| - 1];
      DemandLeavesAreBase(book, rank, demands[..|demands| - 1]);
      LeavesAreBase(book, rank, d.0, d.1);
      AllBaseAppend(book, DemandLeaves(book, rank, demands[..|demands| - 1]), Leaves(book, rank, d.0, d.1));
    }
  }

  /** The total of all values of a list of contributions. */
  function Mass(t: Tally): real {
    if t == [] then 0.0 else t[0].1 + Mass(t[1..])
  }

  lemma {:induction false} MassAppend(xs: Tally, ys: Tally)
    ensures Mass(xs + ys) == Mass(xs) + Mass(ys)
  {
    if xs == [] {
      assert xs + ys == ys;
    } else {
      assert (xs + ys)[1..] == xs[1..] + ys;
      MassAppend(xs[1..], ys);
    }
  }

  /** Splitting conserves quantity: when an entry of quantity `qty` of a
      product names only base ingredients as its options, their shares of a
      demand of `m` add up to exactly qty * m, however many options there are. */
  lemma SplitConserves(book: Catalog, rank: map<string, nat>, parent: string, opts: seq<string>, qty: real, m: real)
    requires Ranked(book, rank) && parent in book && opts != []
    requires forall o :: o in opts ==> o !in book
    ensures Mass(OptionLeaves(book, rank, parent, opts, Share(qty, m, |opts|))) == qty * m
  {
    var share := Share(qty, m, |opts|);
    OptionLeavesMass(book, rank, parent, opts, share);
    SharesTotal(Mass(OptionLeaves(book, rank, parent, opts, share)), qty, m, |opts|);
  }

  lemma {:induction false} OptionLeavesMass(book: Catalog, rank: map<string, nat>, parent: string, opts: seq<string>, share: real)
    requires Ranked(book, rank) && parent in book
    requires forall o :: o in opts ==> o !in book
    ensures Mass(OptionLeaves(book, rank, parent, opts, share)) == Times(|opts| as real, share)
  {
    if opts != [] {
      var o := opts[|opts| - 1];
      assert o in opts;
      OptionLeavesMass(book, rank, parent, opts[..|opts| - 1], share);
      OptionLeavesLast(book, rank, parent, opts, share);
      MassAppend(OptionLeaves(book, rank, parent, opts[..|opts| - 1], share), Leaves(book, rank, o, share));
    }
  }

  /** Totals add up across top-level demands: the total of an ingredient
      for two lists of demands is the sum of its totals for each. */
  lemma {:induction false} DemandsAdd(book: Catalog, rank: map<string, nat>, d1: seq<(string, real)>, d2: seq<(string, real)>, k: string)
    requires Ranked(book, rank)
    ensures SumOf(DemandLeaves(book, rank, d1 + d2), k)
         == SumOf(DemandLeaves(book, rank, d1), k) + SumOf(DemandLeaves(book, rank, d2), k)
    decreases |d2|
  {
    if d2 == [] {
      assert d1 + d2 == d1;
    } else {
      var last := d2[|d2| - 1];
      assert (d1 + d2)[..|d1 + d2| - 1] == d1 + d2[..|d2| - 1];
      DemandsAdd(book, rank, d1, d2[..|d2| - 1], k);
      SumOfAppend(DemandLeaves(book, rank, d1 + d2[..|d2| - 1]), Leaves(book, rank, last.0, last.1), k);
      SumOfAppend(DemandLeaves(book, rank, d2[..|d2| - 1]), Leaves(book, rank, last.0, last.1), k);
    }
  }
}
