/**
 * The workshop-parts report: every line "item,quantity" of the parts files
 * is read, the quantities of each item are added up, the items are sorted by
 * name, and each is given the crystals its quantity needs, rendered as text.
 */
module WorkshopParts {
  import opened Optional
  import opened Text
  import opened Recipes
  import opened CrystalCount

  /** One item of the consolidated table. */
  datatype Part = Part(item: string, quantity: int)

  /** One line of the consolidated table, with its "Crystals Needed" text. */
  datatype Line = Line(item: string, quantity: int, crystals: string)

  // ------------------------------------------------------------- one line

  /** What a line of a parts file contributes: once stripped it must be
      non-empty and hold a comma; the item is the text before the first
      comma, stripped, and the quantity is int() of the rest. A line without
      a comma, or whose quantity int() rejects, contributes nothing. */
  function LineEntry(line: string): (r: Option<(string, int)>)
    ensures r.Some? ==> ',' in line && ',' !in r.value.0
  {
    var t := Strip(line);
    if t != [] && ',' in t then
      var k := IndexOf(t, ',');
      match ParseInt(Strip(t[k + 1..]))
      case None => None
      case Some(q) =>
        StripKeepsChars(line);
        StripKeepsChars(t[..k]);
        Some((Strip(t[..k]), q))
    else None
  }

  /** A line written as item + "," + str(n) reads back as that item and n. */
  lemma LineEntryOfLine(item: string, n: int)
    requires ',' !in item && Strip(item) == item
    ensures LineEntry(item + "," + IntStr(n)) == Some((item, n))
  {
    var line := item + "," + IntStr(n);
    var digits := IntStr(n);
    IntStrShape(n);
    IntStrParses(n);
    assert ParseInt(Strip(digits)) == Some(n);
    var d := NatStr(if n < 0 then -n else n);
    assert IsDigit(d[|d| - 1]) && digits[|digits| - 1] == d[|d| - 1];
    assert line[|line| - 1] == digits[|digits| - 1];
    if item != [] {
      assert line[0] == item[0];
    }
    StripUnchanged(line);
    assert line[|item|] == ',' && line[..|item|] == item;
    assert IndexOf(line, ',') == |item|;
    assert line[|item| + 1..] == digits;
    LineEntryAt(line, |item|, n);
  }

  /** A stripped line whose first comma is at `k` and whose rest int() reads
      as `q` contributes its stripped head and `q`. */
  lemma LineEntryAt(line: string, k: nat, q: int)
    requires Strip(line) == line && k < |line| && line[k] == ',' && IndexOf(line, ',') == k
    requires ParseInt(Strip(line[k + 1..])) == Some(q)
    ensures LineEntry(line) == Some((Strip(line[..k]), q))
  {
  }

  // ----------------------------------------------------- all the lines

  /** The lines of all files, file after file. */
  ghost function Flatten(files: seq<seq<string>>): seq<string> {
    if files == [] then [] else Flatten(files[..|files| - 1]) + files[|files| - 1]
  }

  /** What each of `lines` contributes, in order. */
  ghost function EntriesOf(lines: seq<string>): seq<Option<(string, int)>> {
    if lines == [] then [] else EntriesOf(lines[..|lines| - 1]) + [LineEntry(lines[|lines| - 1])]
  }

  /** What the lines of all files contribute. */
  ghost function FileEntries(files: seq<seq<string>>): seq<Option<(string, int)>> {
    EntriesOf(Flatten(files))
  }

  /** Some entry names `k`. */
  ghost predicate Named(entries: seq<Option<(string, int)>>, k: string) {
    entries != [] && (Named(entries[..|entries| - 1], k) || Names(entries[|entries| - 1], k))
  }

  predicate Names(e: Option<(string, int)>, k: string) {
    e.Some? && e.value.0 == k
  }

  /** The sum of the quantities the entries give `k`. */
  ghost function ItemTotal(entries: seq<Option<(string, int)>>, k: string): int {
    if entries == [] then 0
    else
      var e := entries[|entries| - 1];
      ItemTotal(entries[..|entries| - 1], k) + (if Names(e, k) then e.value.1 else 0)
  }

  /** `item_quantities` after `entries`: one key per item named, holding the
      sum of its quantities. */
  ghost predicate Tallied(quantities: map<string, int>, entries: seq<Option<(string, int)>>) {
    && (forall k :: k in quantities <==> Named(entries, k))
    && (forall k :: k in quantities ==> quantities[k] == ItemTotal(entries, k))
  }

  /** One more entry: it names what it names and adds its quantity there. */
  lemma OneMoreEntry(entries: seq<Option<(string, int)>>, e: Option<(string, int)>, k: string)
    ensures Named(entries + [e], k) <==> Named(entries, k) || Names(e, k)
    ensures ItemTotal(entries + [e], k) == ItemTotal(entries, k) + (if Names(e, k) then e.value.1 else 0)
  {
    var all := entries + [e];
    assert all[..|all| - 1] == entries && all[|all| - 1] == e;
  }

  /** The update of item_quantities for one line keeps the table tallied. */
  lemma TalliedStep(quantities: map<string, int>, entries: seq<Option<(string, int)>>, e: Option<(string, int)>)
    requires Tallied(quantities, entries)
    ensures Tallied(Bump(quantities, e), entries + [e])
  {
    forall k ensures ItemTotal(entries + [e], k) == ItemTotal(entries, k) + (if Names(e, k) then e.value.1 else 0)
      && (Named(entries + [e], k) <==> Named(entries, k) || Names(e, k))
      && (!Named(entries, k) ==> ItemTotal(entries, k) == 0)
    {
      OneMoreEntry(entries, e, k);
      if !Named(entries, k) {
        UnnamedIsZero(entries, k);
      }
    }
  }

  lemma {:induction false} UnnamedIsZero(entries: seq<Option<(string, int)>>, k: string)
    requires !Named(entries, k)
    ensures ItemTotal(entries, k) == 0
  {
    if entries != [] {
      UnnamedIsZero(entries[..|entries| - 1], k);
    }
  }

  lemma EntriesStep(lines: seq<string>, line: string)
    ensures EntriesOf(lines + [line]) == EntriesOf(lines) + [LineEntry(line)]
  {
    var all := lines + [line];
    assert all[..|all| - 1] == lines && all[|all| - 1] == line;
  }

  lemma FlattenStep(files: seq<seq<string>>, f: nat)
    requires f < |files|
    ensures Flatten(files[..f + 1]) == Flatten(files[..f]) + files[f]
  {
    assert files[..f + 1][..f] == files[..f];
  }

  lemma NoneNamed(entries: seq<Option<(string, int)>>)
    requires Tallied(map[], entries)
    ensures forall k :: !Named(entries, k)
  {
  }

  // ----------------------------------------------------- file order

  lemma {:induction false} FlattenAppend(a: seq<seq<string>>, b: seq<seq<string>>)
    ensures Flatten(a + b) == Flatten(a) + Flatten(b)
    decreases |b|
  {
    if b == [] {
      assert a + b == a;
    } else {
      var ab := a + b;
      var front, last := b[..|b| - 1], b[|b| - 1];
      assert ab[..|ab| - 1] == a + front && ab[|ab| - 1] == last;
      assert Flatten(b) == Flatten(front) + last;
      FlattenAppend(a, front);
      calc {
        Flatten(ab);
        Flatten(a + front) + last;
        (Flatten(a) + Flatten(front)) + last;
        Flatten(a) + (Flatten(front) + last);
      }
    }
  }

  lemma {:induction false} EntriesAppend(xs: seq<string>, ys: seq<string>)
    ensures EntriesOf(xs + ys) == EntriesOf(xs) + EntriesOf(ys)
    decreases |ys|
  {
    if ys == [] {
      assert xs + ys == xs;
    } else {
      var front := ys[..|ys| - 1];
      var last := ys[|ys| - 1];
      var e := LineEntry(last);
      assert xs + ys == (xs + front) + [last];
      EntriesStep(xs + front, last);
      EntriesAppend(xs, front);
      assert EntriesOf(ys) == EntriesOf(front) + [e];
      assert (EntriesOf(xs) + EntriesOf(front)) + [e] == EntriesOf(xs) + (EntriesOf(front) + [e]);
    }
  }

  lemma {:induction false} TallyAppend(xs: seq<Option<(string, int)>>, ys: seq<Option<(string, int)>>, k: string)
    ensures Named(xs + ys, k) <==> Named(xs, k) || Named(ys, k)
    ensures ItemTotal(xs + ys, k) == ItemTotal(xs, k) + ItemTotal(ys, k)
    decreases |ys|
  {
    if ys == [] {
      assert xs + ys == xs;
    } else {
      var all := xs + ys;
      assert all[..|all| - 1] == xs + ys[..|ys| - 1] && all[|all| - 1] == ys[|ys| - 1];
      TallyAppend(xs, ys[..|ys| - 1], k);
    }
  }

  /** Two groups of files, one after the other: an item is named by the
      lines of both exactly when one of them names it, and its total is the
      sum of the two totals. */
  lemma FilesAppend(xs: seq<seq<string>>, ys: seq<seq<string>>, k: string)
    ensures Named(FileEntries(xs + ys), k) <==> Named(FileEntries(xs), k) || Named(FileEntries(ys), k)
    ensures ItemTotal(FileEntries(xs + ys), k) == ItemTotal(FileEntries(xs), k) + ItemTotal(FileEntries(ys), k)
  {
    FlattenAppend(xs, ys);
    EntriesAppend(Flatten(xs), Flatten(ys));
    TallyAppend(FileEntries(xs), FileEntries(ys), k);
  }

  /** The order the files are found in does not matter: swapping two
      neighbouring groups of files anywhere in the list names the same items
      with the same totals. Such swaps reach every order of the files. */
  lemma FileOrderIrrelevant(pre: seq<seq<string>>, a: seq<seq<string>>, b: seq<seq<string>>, post: seq<seq<string>>, k: string)
    ensures Named(FileEntries(pre + a + b + post), k) <==> Named(FileEntries(pre + b + a + post), k)
    ensures ItemTotal(FileEntries(pre + a + b + post), k) == ItemTotal(FileEntries(pre + b + a + post), k)
  {
    FilesAppend(pre + a + b, post, k);
    FilesAppend(pre + a, b, k);
    FilesAppend(pre, a, k);
    FilesAppend(pre + b + a, post, k);
    FilesAppend(pre + b, a, k);
    FilesAppend(pre, b, k);
  }

  // ------------------------------------------------------ consolidation

  /** The data-frame part of consolidate_csv_files: the quantities of each
      item over all lines of all files, one part per item, sorted by item;
      None when no file has a usable line. */
  method Consolidate(files: seq<seq<string>>) returns (r: Option<seq<Part>>)
    ensures r.None? ==> forall k :: !Named(FileEntries(files), k)
    ensures r.Some? ==> exists k :: Named(FileEntries(files), k)
    ensures r.Some? ==> forall i, j :: 0 <= i < j < |r.value| ==> StrLt(r.value[i].item, r.value[j].item)
    ensures r.Some? ==> forall k :: (exists i :: 0 <= i < |r.value| && r.value[i].item == k) <==> Named(FileEntries(files), k)
    ensures r.Some? ==> forall i :: 0 <= i < |r.value| ==> r.value[i].quantity == ItemTotal(FileEntries(files), r.value[i].item)
  {
    if files == [] {
      assert FileEntries(files) == [];
      return None;
    }
    var quantities: map<string, int> := map[];
    assert files[..0] == [];
    for f := 0 to |files|
      invariant Tallied(quantities, EntriesOf(Flatten(files[..f])))
    {
      quantities := TallyLines(quantities, Flatten(files[..f]), files[f]);
      FlattenStep(files, f);
    }
    assert files[..|files|] == files;
    if quantities == map[] {
      NoneNamed(FileEntries(files));
      return None;
    }
    var parts := SortedParts(quantities);
    r := Some(parts);
    var k :| k in quantities;
    assert Named(FileEntries(files), k);
  }

  /** The loop over the lines of one file, after the lines `seen`. */
  method TallyLines(quantities: map<string, int>, ghost seen: seq<string>, lines: seq<string>)
    returns (updated: map<string, int>)
    requires Tallied(quantities, EntriesOf(seen))
    ensures Tallied(updated, EntriesOf(seen + lines))
  {
    updated := quantities;
    assert seen + lines[..0] == seen;
    for l := 0 to |lines|
      invariant Tallied(updated, EntriesOf(seen + lines[..l]))
    {
      var entry := LineEntry(lines[l]);
      TallyLine(updated, seen, lines, l);
      if entry.Some? {
        var (item, quantity) := entry.value;
        BumpSome(updated, item, quantity);
        updated := updated[item := (if item in updated then updated[item] else 0) + quantity];
      }
    }
    assert lines[..|lines|] == lines;
  }

  /** item_quantities after the entry of one more line. */
  function Bump(quantities: map<string, int>, e: Option<(string, int)>): map<string, int> {
    if e.None? then quantities
    else quantities[e.value.0 := (if e.value.0 in quantities then quantities[e.value.0] else 0) + e.value.1]
  }

  lemma BumpSome(quantities: map<string, int>, item: string, quantity: int)
    ensures Bump(quantities, Some((item, quantity)))
         == quantities[item := (if item in quantities then quantities[item] else 0) + quantity]
  {
  }

  /** One pass of the line loop keeps the table tallied. */
  lemma TallyLine(quantities: map<string, int>, seen: seq<string>, lines: seq<string>, l: nat)
    requires l < |lines| && Tallied(quantities, EntriesOf(seen + lines[..l]))
    ensures Tallied(Bump(quantities, LineEntry(lines[l])), EntriesOf(seen + lines[..l + 1]))
  {
    TalliedStep(quantities, EntriesOf(seen + lines[..l]), LineEntry(lines[l]));
    SnocSlice(seen, lines, l);
    EntriesStep(seen + lines[..l], lines[l]);
  }

  lemma SnocSlice(seen: seq<string>, lines: seq<string>, l: nat)
    requires l < |lines|
    ensures seen + lines[..l + 1] == (seen + lines[..l]) + [lines[l]]
  {
    assert lines[..l + 1] == lines[..l] + [lines[l]];
  }

  /** The table built from item_quantities and sorted by item. */
  method SortedParts(quantities: map<string, int>) returns (parts: seq<Part>)
    ensures forall i, j :: 0 <= i < j < |parts| ==> StrLt(parts[i].item, parts[j].item)
    ensures forall k :: (exists i :: 0 <= i < |parts| && parts[i].item == k) <==> k in quantities
    ensures forall i :: 0 <= i < |parts| ==> parts[i].item in quantities && parts[i].quantity == quantities[parts[i].item]
  {
    var names := SortStrings(quantities.Keys);
    parts := seq(|names|, i requires 0 <= i < |names| => Part(names[i], quantities[names[i]]));
    forall i | 0 <= i < |parts|
      ensures parts[i].item == names[i] && parts[i].item in quantities && parts[i].quantity == quantities[parts[i].item]
    {
      assert names[i] in names;
    }
    forall k | k in quantities ensures exists i :: 0 <= i < |parts| && parts[i].item == k {
      assert k in names;
      var i :| 0 <= i < |names| && names[i] == k;
      assert parts[i].item == k;
    }
  }

  /** The "Crystals Needed" column: for each part, the rendering of the
      crystals its quantity needs. */
  method CrystalsColumn(book: Catalog, ghost rank: map<string, nat>, methods: MethodMap, parts: seq<Part>)
    returns (column: seq<string>)
    requires Ranked(book, rank)
    ensures |column| == |parts|
    ensures forall i :: 0 <= i < |parts| ==>
      column[i] == Rendered(Crystals(book, rank, methods, parts[i].item, parts[i].quantity as real))
  {
    ghost var wanted := seq(|parts|, j requires 0 <= j < |parts| =>
      Rendered(Crystals(book, rank, methods, parts[j].item, parts[j].quantity as real)));
    column := [];
    for i := 0 to |parts|
      invariant column == wanted[..i]
    {
      var needed := Crystals(book, rank, methods, parts[i].item, parts[i].quantity as real);
      var text := Render(needed);
      PrefixGrows(column, wanted, i, text);
      column := column + [text];
    }
    assert wanted[..|parts|] == wanted;
  }

  /** Appending the next wanted element extends the prefix built so far. */
  lemma PrefixGrows(column: seq<string>, wanted: seq<string>, i: nat, text: string)
    requires i < |wanted| && column == wanted[..i] && text == wanted[i]
    ensures column + [text] == wanted[..i + 1]
  {
  }

  /** consolidate_csv_files without its file I/O: the consolidated, sorted
      parts, each with the crystals it needs under the recipe catalog `book`
      and the gathering methods of `gathering`. */
  method ConsolidateWorkshopParts(files: seq<seq<string>>, book: Catalog, ghost rank: map<string, nat>, gathering: seq<Row>)
    returns (r: Option<seq<Line>>)
    requires Ranked(book, rank)
    ensures r.None? ==> forall k :: !Named(FileEntries(files), k)
    ensures r.Some? ==> exists k :: Named(FileEntries(files), k)
    ensures r.Some? ==> forall i, j :: 0 <= i < j < |r.value| ==> StrLt(r.value[i].item, r.value[j].item)
    ensures r.Some? ==> forall k :: (exists i :: 0 <= i < |r.value| && r.value[i].item == k) <==> Named(FileEntries(files), k)
    ensures r.Some? ==> forall i :: 0 <= i < |r.value| ==>
      && r.value[i].quantity == ItemTotal(FileEntries(files), r.value[i].item)
      && r.value[i].crystals == Rendered(Crystals(book, rank, MethodMapOf(gathering), r.value[i].item, r.value[i].quantity as real))
  {
    var parts := Consolidate(files);
    if parts.None? {
      return None;
    }
    var methods := MethodMapOf(gathering);
    var column := CrystalsColumn(book, rank, methods, parts.value);
    var lines := seq(|parts.value|, i requires 0 <= i < |parts.value| =>
      Line(parts.value[i].item, parts.value[i].quantity, column[i]));
    forall i | 0 <= i < |lines|
      ensures lines[i].item == parts.value[i].item && lines[i].quantity == parts.value[i].quantity
      ensures lines[i].crystals == Rendered(Crystals(book, rank, methods, lines[i].item, lines[i].quantity as real))
    {
    }
    forall k | Named(FileEntries(files), k) ensures exists i :: 0 <= i < |lines| && lines[i].item == k {
      var i :| 0 <= i < |parts.value| && parts.value[i].item == k;
      assert lines[i].item == k;
    }
    r := Some(lines);
  }
}
