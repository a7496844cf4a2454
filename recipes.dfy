/**
 * The recipe catalog: how a recipe-book row of alternating ingredient and
 * quantity cells becomes an ordered ingredient list, how an ingredient cell
 * names one or several interchangeable options, and the ranking of products
 * that makes the recursive expansions terminate.
 */
module Recipes {
  import opened Optional
  import opened Text

  /** One (ingredient cell, quantity) pair of a recipe; the cell may name
      several options separated by '|'. */
  datatype Ingredient = Ingredient(cell: string, qty: real)

  /** Product name -> its ingredient list. A name that is not a key is a
      base ingredient. */
  type Catalog = map<string, seq<Ingredient>>

  /** A table row as loaded: one cell per column, None where the cell is
      empty (pandas reads it as NaN). Every row of a table has the table's
      column count. */
  type Row = seq<Option<string>>

  /** Cell `c` of a row; a column beyond the row counts as empty. */
  function Column(row: Row, c: nat): Option<string> {
    if c < |row| then row[c] else None
  }

  /** The ingredient cell of pair `j`: column 2j+1. */
  function IngredientCell(row: Row, j: nat): Option<string> {
    Column(row, 2 * j + 1)
  }

  /** The quantity of pair `j`, read from column 2j+2: float() of the cell,
      0.0 when the cell is empty or beyond the row, None when float() fails. */
  function CellQuantity(row: Row, j: nat): Option<real> {
    match Column(row, 2 * j + 2)
    case None => Some(0.0)
    case Some(text) => ParseDecimal(text)
  }

  /** Pairs 0..j all have an ingredient cell. */
  ghost predicate Listed(row: Row, j: nat) {
    forall j' :: 0 <= j' <= j ==> IngredientCell(row, j').Some?
  }

  /** `ings` is what the row lists: pair j from columns (2j+1, 2j+2), up to
      the first empty ingredient cell. */
  ghost predicate Lists(row: Row, ings: seq<Ingredient>) {
    ListsPrefix(row, ings) && IngredientCell(row, |ings|).None?
  }

  /** Pair j of the row is `ing`. */
  ghost predicate PairIs(row: Row, j: nat, ing: Ingredient) {
    IngredientCell(row, j) == Some(ing.cell) && CellQuantity(row, j) == Some(ing.qty)
  }

  /** The first |ings| pairs of the row are `ings`. */
  ghost predicate ListsPrefix(row: Row, ings: seq<Ingredient>)
    decreases |ings|
  {
    ings == [] || (ListsPrefix(row, ings[..|ings| - 1]) && PairIs(row, |ings| - 1, ings[|ings| - 1]))
  }

  lemma {:induction false} ListsPrefixAt(row: Row, ings: seq<Ingredient>, j: nat)
    requires ListsPrefix(row, ings) && j < |ings|
    ensures PairIs(row, j, ings[j])
    decreases |ings|
  {
    if j < |ings| - 1 {
      ListsPrefixAt(row, ings[..|ings| - 1], j);
    }
  }

  lemma ListsOneMore(row: Row, ings: seq<Ingredient>, next: Ingredient)
    requires ListsPrefix(row, ings) && PairIs(row, |ings|, next)
    ensures ListsPrefix(row, ings + [next])
  {
    assert (ings + [next])[..|ings|] == ings;
  }

  /** Some listed pair has a quantity float() cannot read, so the parse raises. */
  ghost predicate Fails(row: Row) {
    exists j: nat :: Listed(row, j) && CellQuantity(row, j).None?
  }

  /** A row lists at most one ingredient list, and one that lists a list
      does not fail. */
  lemma ListsDetermined(row: Row, a: seq<Ingredient>, b: seq<Ingredient>)
    requires Lists(row, a) && Lists(row, b)
    ensures a == b && !Fails(row)
  {
    if |a| < |b| {
      ListsPrefixAt(row, b, |a|);
      assert false;
    }
    if |b| < |a| {
      ListsPrefixAt(row, a, |b|);
      assert false;
    }
    forall j | 0 <= j < |a| ensures a[j] == b[j] {
      ListsPrefixAt(row, a, j);
      ListsPrefixAt(row, b, j);
    }
    forall j: nat | Listed(row, j) ensures CellQuantity(row, j).Some? {
      if j < |a| {
        ListsPrefixAt(row, a, j);
      } else {
        assert false;
      }
    }
  }

  /** The pairs read so far, and the next one, all have ingredient cells. */
  lemma ListedSoFar(row: Row, ings: seq<Ingredient>)
    requires ListsPrefix(row, ings)
    requires IngredientCell(row, |ings|).Some?
    ensures Listed(row, |ings|)
  {
    forall j' | 0 <= j' <= |ings| ensures IngredientCell(row, j').Some? {
      if j' < |ings| {
        ListsPrefixAt(row, ings, j');
      }
    }
  }

  /** The ingredient loop over one recipe-book row: columns 1, 3, 5, ...
      until the first empty ingredient cell; a missing quantity is 0.0 and
      does not stop the list; an unreadable one makes the parse fail. */
  method ParseRow(row: Row) returns (r: Option<seq<Ingredient>>)
    ensures r.Some? ==> Lists(row, r.value)
    ensures r.None? ==> Fails(row)
  {
    var ings: seq<Ingredient> := [];
    var i := 1;
    while i < |row|
      invariant i == 2 * |ings| + 1
      invariant ListsPrefix(row, ings)
      decreases |row| - i
    {
      if row[i].None? {
        break;
      }
      assert IngredientCell(row, |ings|) == row[i];
      var qty: real;
      if i + 1 < |row| && row[i + 1].Some? {
        var q := ParseDecimal(row[i + 1].value);
        if q.None? {
          ListedSoFar(row, ings);
          assert CellQuantity(row, |ings|).None?;
          return None;
        }
        qty := q.value;
      } else {
        qty := 0.0;
      }
      assert PairIs(row, |ings|, Ingredient(row[i].value, qty));
      ListsOneMore(row, ings, Ingredient(row[i].value, qty));
      ings := ings + [Ingredient(row[i].value, qty)];
      i := i + 2;
    }
    return Some(ings);
  }

  /** The product a row defines: column 0. An empty product cell (NaN)
      defines a key no ingredient name ever looks up, so it is dropped. */
  function Product(row: Row): Option<string> {
    Column(row, 0)
  }

  /** Row `k` is the last row defining `p`. */
  ghost predicate LastFor(rows: seq<Row>, k: int, p: string) {
    0 <= k < |rows| && Product(rows[k]) == Some(p)
    && forall k' :: k < k' < |rows| ==> Product(rows[k']) != Some(p)
  }

  /** `book` is what the first `n` rows define: one key per product named
      in column 0, mapped to what the last row defining it lists. */
  ghost predicate Defines(rows: seq<Row>, n: nat, book: Catalog)
    requires n <= |rows|
  {
    && (forall p :: p in book <==> exists k :: 0 <= k < n && Product(rows[k]) == Some(p))
    && (forall p :: p in book ==> exists k :: LastFor(rows[..n], k, p) && Lists(rows[k], book[p]))
  }

  /** None of the first n rows fails. */
  ghost predicate NoneFail(rows: seq<Row>, n: nat)
    requires n <= |rows|
  {
    forall k :: 0 <= k < n ==> !Fails(rows[k])
  }

  lemma NoneFailOneMore(rows: seq<Row>, n: nat)
    requires n < |rows| && NoneFail(rows, n) && !Fails(rows[n])
    ensures NoneFail(rows, n + 1)
  {
  }

  /** Row n, listing `ings`, overrides whatever an earlier row defined for
      its product. */
  lemma DefinesOneMore(rows: seq<Row>, n: nat, book: Catalog, ings: seq<Ingredient>)
    requires n < |rows| && Defines(rows, n, book) && Lists(rows[n], ings)
    ensures Defines(rows, n + 1, if Product(rows[n]).Some? then book[Product(rows[n]).value := ings] else book)
  {
    var next := if Product(rows[n]).Some? then book[Product(rows[n]).value := ings] else book;
    KeysOneMore(rows, n, book, next, ings);
    ValuesOneMore(rows, n, book, next, ings);
  }

  /** The products defined after one more row. */
  lemma KeysOneMore(rows: seq<Row>, n: nat, book: Catalog, next: Catalog, ings: seq<Ingredient>)
    requires n < |rows| && Defines(rows, n, book)
    requires next == if Product(rows[n]).Some? then book[Product(rows[n]).value := ings] else book
    ensures forall p :: p in next <==> exists k :: 0 <= k < n + 1 && Product(rows[k]) == Some(p)
  {
    forall p ensures p in next <==> exists k :: 0 <= k < n + 1 && Product(rows[k]) == Some(p) {
      if p !in book && Product(rows[n]) == Some(p) {
        assert Product(rows[n]) == Some(p);
      }
    }
  }

  /** What each product maps to after one more row. */
  lemma ValuesOneMore(rows: seq<Row>, n: nat, book: Catalog, next: Catalog, ings: seq<Ingredient>)
    requires n < |rows| && Defines(rows, n, book) && Lists(rows[n], ings)
    requires next == if Product(rows[n]).Some? then book[Product(rows[n]).value := ings] else book
    ensures forall p :: p in next ==> exists k :: LastFor(rows[..n + 1], k, p) && Lists(rows[k], next[p])
  {
    forall p | p in next ensures exists k :: LastFor(rows[..n + 1], k, p) && Lists(rows[k], next[p]) {
      if Product(rows[n]) == Some(p) {
        LastRow(rows, n, p, ings);
      } else {
        var k :| LastFor(rows[..n], k, p) && Lists(rows[k], book[p]);
        LastStays(rows, n, k, p, book[p]);
      }
    }
  }

  lemma LastRow(rows: seq<Row>, n: nat, p: string, ings: seq<Ingredient>)
    requires n < |rows| && Product(rows[n]) == Some(p) && Lists(rows[n], ings)
    ensures exists k :: LastFor(rows[..n + 1], k, p) && Lists(rows[k], ings)
  {
    assert LastFor(rows[..n + 1], n, p);
  }

  lemma LastStays(rows: seq<Row>, n: nat, k: nat, p: string, ings: seq<Ingredient>)
    requires n < |rows| && LastFor(rows[..n], k, p) && Product(rows[n]) != Some(p) && Lists(rows[k], ings)
    ensures exists k :: LastFor(rows[..n + 1], k, p) && Lists(rows[k], ings)
  {
    assert forall k' :: k < k' < n + 1 ==> rows[..n + 1][k'] == rows[k'];
    assert forall k' :: k < k' < n ==> rows[..n][k'] == rows[k'];
  }

  /** The recipe-book loop: every row is parsed; each product maps to what
      its last row lists; a quantity that does not parse fails the whole
      load (float() raises). */
  method ParseRecipeBook(rows: seq<Row>) returns (r: Option<Catalog>)
    ensures r.None? ==> exists k :: 0 <= k < |rows| && Fails(rows[k])
    ensures r.Some? ==> forall k :: 0 <= k < |rows| ==> !Fails(rows[k])
    ensures r.Some? ==> forall p :: p in r.value <==> exists k :: 0 <= k < |rows| && Product(rows[k]) == Some(p)
    ensures r.Some? ==> forall p :: p in r.value ==> exists k :: LastFor(rows, k, p) && Lists(rows[k], r.value[p])
  {
    var book: Catalog := map[];
    for n := 0 to |rows|
      invariant Defines(rows, n, book)
      invariant NoneFail(rows, n)
    {
      var ings := ParseRow(rows[n]);
      if ings.None? {
        assert Fails(rows[n]);
        return None;
      }
      ListsDetermined(rows[n], ings.value, ings.value);
      NoneFailOneMore(rows, n);
      DefinesOneMore(rows, n, book, ings.value);
      var product := Product(rows[n]);
      if product.Some? {
        book := book[product.value := ings.value];
      }
    }
    assert rows[..|rows|] == rows;
    return Some(book);
  }

  /** The options of an ingredient cell: str(cell).split('|'), each piece
      stripped. There is always at least one (one per '|', plus one), and an
      empty piece is the option "". */
  function Options(cell: string): (r: seq<string>)
    ensures |r| == Count(cell, '|') + 1
  {
    var parts := Split(cell, '|');
    seq(|parts|, i requires 0 <= i < |parts| => Strip(parts[i]))
  }

  /** No option contains the separator. */
  lemma OptionsAreSeparated(cell: string)
    ensures forall o :: o in Options(cell) ==> '|' !in o
  {
    var parts := Split(cell, '|');
    forall o | o in Options(cell) ensures '|' !in o {
      var i :| 0 <= i < |parts| && o == Strip(parts[i]);
      StripKeepsChars(parts[i]);
    }
  }

  /** A cell without '|' is a single option: the cell itself, stripped. */
  lemma SingleOption(cell: string)
    requires '|' !in cell
    ensures Options(cell) == [Strip(cell)]
  {
    SplitWithoutSeparator(cell, '|');
  }

  /** The multiplier each of `n` options receives from an entry of quantity
      `qty` under a demand of `m`: qty * multiplier / len(options). */
  function Share(qty: real, m: real, n: nat): real
    requires n > 0
  {
    qty * m / n as real
  }

  /** The shares of the options add back up to qty * multiplier. */
  lemma SharesAddUp(qty: real, m: real, n: nat)
    requires n > 0
    ensures Times(n as real, Share(qty, m, n)) == qty * m
  {
  }

  /** Anything equal to n shares is qty * multiplier. */
  lemma SharesTotal(x: real, qty: real, m: real, n: nat)
    requires n > 0 && x == Times(n as real, Share(qty, m, n))
    ensures x == qty * m
  {
    SharesAddUp(qty, m, n);
  }

  /** Shares scale with the demand. */
  lemma ShareScales(qty: real, m: real, c: real, n: nat)
    requires n > 0
    ensures Share(qty, Times(c, m), n) == Times(c, Share(qty, m, n))
  {
    assert qty * (c * m) == c * (qty * m);
  }

  /** A quantity scaled by a factor: the multiplier `qty * multiplier` a
      single-option cell passes down, or a demand scaled by `c`. */
  function Times(c: real, v: real): real {
    c * v
  }

  /** A measure for the recursion: products rank above everything they use. */
  function Height(book: Catalog, rank: map<string, nat>, item: string): nat {
    if item in book && item in rank then rank[item] + 1 else 0
  }

  /** Every option of every ingredient in `ings` ranks strictly below `p`. */
  ghost predicate OutranksOptions(book: Catalog, rank: map<string, nat>, p: string, ings: seq<Ingredient>) {
    forall ing, o :: ing in ings && o in Options(ing.cell) ==> Height(book, rank, o) < Height(book, rank, p)
  }

  /** The recipe graph is acyclic, witnessed by `rank`: every product is
      ranked, and ranks strictly above each option of its ingredients. The
      workshop code has no cycle guard; a cycle reachable from a demanded
      item makes it recurse until the interpreter's recursion limit. The
      ranking covers every product, so it also rules out cycles that no
      demand reaches. */
  ghost predicate Ranked(book: Catalog, rank: map<string, nat>) {
    forall p :: p in book ==> p in rank && OutranksOptions(book, rank, p, book[p])
  }
}
