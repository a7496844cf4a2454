# Workshop items: recipe expansion, crystal count, parts consolidation

This project is a Dafny model of the computational core of `workshop_items.py`,
a helper script for a crafting game's workshop. It has three tasks:

- **Gathering list** (`generate_gathering_list`). Each top-level demand
  (product, quantity) is expanded recursively through the recipe book down to
  base ingredients. An ingredient cell may name several alternatives separated
  by `|`; the demand for that cell is split evenly among them. Every base
  ingredient reached adds the multiplier it arrives with to a shared total.
  The totals are joined with the gathering table: the method defaults to
  "unknown", and the location is the non-blank cells from column 2 on, joined
  by ", ". The result is sorted by ingredient.
- **Parts consolidation** (`consolidate_csv_files`). The `item,quantity`
  lines of all parts files are read; the integer quantities of each item are
  added up, and the items are sorted by name.
- **Crystal count.** Each consolidated part gets a "Crystals Needed" text.
  `compute_crystals` expands the part like the gathering list, but it keeps
  only leaves whose gathering method, lower-cased, is "crystal". Crystals
  reached through a multi-option cell are tagged " (alt)", once per such cell
  passed. The renderer writes `A x 2 & B x 1 | C x 1`: required crystals
  joined by " & ", alternatives joined by " | ", and the two groups joined by
  " & ".

Modules:

- `Optional` (optional.dfy): the option type.
- `Text` (text.dfy): the string operations the script relies on:
  - `str.strip`, `str.split`, `str.join`, `in` on strings, `str.replace`
    with the empty string;
  - `str.lower` on ASCII letters only (`Lower`). Its one use is the
    comparison with "crystal", and no other character lowercases to a
    letter of that word;
  - `int()` and `float()` over a decimal grammar, and `str()` of an integer.
    These two skip less whitespace than `str.strip`: they keep the
    separators 0x1c-0x1f (`IsNumSpace`);
  - code-point order and a sort.
- `Tallies` (tally.dfy): a Python dict is modelled as an insertion-ordered
  association list (`Tally`), with `d[k] += v` (`Add`), `d[k] = v` (`Put`)
  and the `for k, v in sub.items(): d[k + suffix] += v` merge loop (`Merge`).
- `Recipes` (recipes.dfy):
  - the recipe-book row parser and the recipe-book loop;
  - the `|` options of a cell and the even split of a demand among them;
  - the acyclicity ranking that makes the recursions terminate.
- `Requirements` (requirements.dfy):
  - a specification of the expansion: `Leaves`, the leaf contributions in
    visiting order;
  - the imperative engine: class `Expander`, whose `totals` field is the
    `requirements` defaultdict mutated by `compute_requirements`;
  - the top-level table and the gathering join.
- `CrystalCount` (crystals.dfy): `compute_crystals` as a pure recursive
  function, the method map, and the rendering loop.
- `WorkshopParts` (parts.dfy): line parsing, the per-file loops of the
  consolidation, the sort, and the "Crystals Needed" column.

Quantities are `real`, because the script only adds, multiplies and divides them.
The recipe graph has no cycle guard in the script. Every recursive member
therefore takes a ghost `rank` and the precondition `Ranked(book, rank)`: each
product ranks strictly above every option of each of its ingredients. A table
row is a `seq<Option<string>>`, with `None` where pandas reads NaN.

## Model

| member | source | states |
|---|---|---|
| Recipes.ParseRow | workshop_items.py:84-93 | The pairs come from columns (1,2), (3,4), … in order. The list ends at the first empty ingredient cell. An empty or missing quantity cell is 0.0 and does not end the list. A quantity float() rejects makes the parse fail. |
| Recipes.ListsDetermined | workshop_items.py:176-185 | A row lists at most one ingredient list, and a row that lists one does not fail. So the recipe-book parse (lines 84-93) and its copy at lines 176-185, whose missing quantity defaults to 0 instead of 0.0, give the same result. |
| Recipes.ParseRecipeBook | workshop_items.py:83-93 | There is one key per product named in column 0. Each product maps to what the last row defining it lists. The load fails exactly when some row fails: on None some row has a quantity that does not parse, and on success no row has one. |
| Recipes.Options | workshop_items.py:104 | Splitting the cell at the bar separator and stripping every piece gives one option per separator plus one, so never zero options. |
| Recipes.OptionsAreSeparated | workshop_items.py:195 | No option contains the bar separator. |
| Recipes.SingleOption | workshop_items.py:104-107 | A cell without a bar is one option, the stripped cell, so it takes the single-option branch. |
| Recipes.SharesAddUp | workshop_items.py:196-197 | The shares `qty*multiplier/len(options)` of all options add back up to `qty*multiplier`. |
| Recipes.ShareScales | workshop_items.py:197 | A share is linear in the demand. |
| Tallies.Add | workshop_items.py:199 | `d[k] += v`: the value under k grows by v and no other value changes. A new key is appended at the end, and distinctness is kept. |
| Tallies.Put | workshop_items.py:187 | `d[k] = v`: the value under k becomes v and no other value changes. A new key is appended, while an existing key keeps its position. |
| Tallies.MergeGet | workshop_items.py:108-109 | The merge loop adds, under k + suffix, the sum of everything the merged dict holds under k. |
| Tallies.MergeKeepsOthers | workshop_items.py:113-115 | The merge leaves alone every key that does not end with the suffix. |
| Tallies.MergeKeepsOrder | workshop_items.py:108-115 | The merge keeps the existing keys in their order, at the front. |
| Tallies.Totals | workshop_items.py:189-199 | Totals accumulated from nothing hold each contributor once, with the sum of its contributions. |
| Requirements.Expander.Expand | workshop_items.py:191-199 | After `compute_requirements(item, m)`, the totals are the old totals with every leaf contribution of the expansion added, in visiting order. |
| Requirements.Expander.ExpandEntry | workshop_items.py:193-197 | One ingredient entry: the demand is split evenly among the options, and each option is expanded in turn. |
| Requirements.ComputeRequirements | workshop_items.py:189-202 | The top-level loop expands every demand, in order, into one shared table that starts empty. |
| Requirements.TopLevelKeys | workshop_items.py:187 | The top-level dict holds exactly the products named by some row. |
| Requirements.TopLevelLast | workshop_items.py:187 | The value kept for a product is the quantity of the last row naming it. |
| Requirements.TopLevelDistinct | workshop_items.py:187 | No product is held twice. |
| Requirements.FindGathering | workshop_items.py:216 | The gathering row found for an ingredient names it in column 0. None means that no row names it. |
| Requirements.TopLevel | workshop_items.py:187 | The `top_level` dict has at most one entry per row, and none only when there are no rows. The last row's quantity is always the one kept for its product. |
| Requirements.LocationParts | workshop_items.py:208-211 | The location parts are the stripped non-blank cells, none empty and none with surrounding spaces. There are none exactly when every cell is blank. |
| Requirements.CombineLocation | workshop_items.py:208-211 | `combine_location` is empty exactly when every cell from column 2 on is blank. Otherwise it neither starts nor ends with whitespace. |
| Requirements.CombineLocationShows | workshop_items.py:208-211 | Every non-blank location cell occurs, stripped, in the combined location. |
| Requirements.MethodFor | workshop_items.py:216-219 | After the left merge and `fillna`, the method is "unknown" when no gathering row names the ingredient. When exactly one row names it, the method is that row's method, or "unknown" if the cell is empty. |
| Requirements.LocationFor | workshop_items.py:216-220 | After the left merge and `fillna`, the location is "" when no gathering row names the ingredient. When exactly one row names it, the location is that row's `combine_location`. |
| Requirements.JoinGathering | workshop_items.py:204-222 | There is one line per key of the totals, sorted by ingredient, with its total. The method is the gathering row's method or "unknown". The location is `combine_location` of the gathering row or "". |
| Requirements.GatheringList | workshop_items.py:187-222 | The lines are exactly the ingredients reached, sorted. None of them has a recipe. Each total is the sum of its leaf contributions over all top-level demands, with the method and location joined in. |
| Requirements.LeavesScale | workshop_items.py:191-199 | Expansion is linear: demanding c times as much scales every leaf contribution by c and keeps names and order. |
| Requirements.LeavesAreBase | workshop_items.py:191-199 | Only items without a recipe receive contributions. |
| Requirements.SplitConserves | workshop_items.py:195-197 | Over base options, the contributions of one entry add up to exactly `qty*multiplier`, however many options there are. |
| Requirements.DemandsAdd | workshop_items.py:201-202 | Totals are additive across top-level demands. |
| CrystalCount.MethodMapOf | workshop_items.py:95-96 | The method map has exactly one key per ingredient named in column 0 of the gathering table. |
| CrystalCount.MethodMapLast | workshop_items.py:96 | The method kept for an ingredient is that of the last row naming it. |
| CrystalCount.IsCrystal | workshop_items.py:117 | An item counts as a crystal exactly when the method map holds a method for it that spells "crystal" in any capitalisation. |
| CrystalCount.Crystals | workshop_items.py:99-120 | `compute_crystals` returns a dict: no key twice. |
| CrystalCount.CrystalsWeight | workshop_items.py:99-120 | With the " (alt)" tags removed, the crystal totals are exactly what the crystal leaves of the expansion contribute. Every crystal leaf counts with its multiplier, and no other leaf counts. |
| CrystalCount.OneOptionAdds | workshop_items.py:106-109 | A single-option entry adds the sub-result at `qty*multiplier` under unchanged keys. |
| CrystalCount.SeveralOptionsAdd | workshop_items.py:110-115 | A multi-option entry adds, under k + " (alt)", what the options hold under k at the even share. It leaves untagged keys alone. |
| CrystalCount.TaggedShows | workshop_items.py:133-135 | A crystal name without '(' tagged n times is an alternative exactly when n > 0, and it is shown under its own stripped name. |
| CrystalCount.Trunc | workshop_items.py:135-137 | `int(v)` truncates toward zero. |
| CrystalCount.Render | workshop_items.py:129-145 | The rendering loop yields required entries joined by " & " and alternatives joined by a bar with a space on each side. The non-empty groups are joined by " & ". |
| CrystalCount.RenderedEmpty | workshop_items.py:139-145 | The rendering is empty exactly when there are no crystals. |
| CrystalCount.RenderedShows | workshop_items.py:132-145 | Every crystal's entry `name x int(v)` appears in the rendering. Alternatives appear under their name with the tags removed. |
| CrystalCount.RenderedPair | workshop_items.py:139-145 | A required crystal and an alternative render as `A x n & B x m`. |
| WorkshopParts.LineEntry | workshop_items.py:47-56 | A usable line holds a comma. The item, taken before the first comma, holds none. |
| WorkshopParts.LineEntryOfLine | workshop_items.py:47-54 | A line `item,str(n)` reads back as (item, n). |
| WorkshopParts.TallyLines | workshop_items.py:46-56 | The loop over one file's lines keeps every item's running total equal to the sum of its usable lines so far. |
| WorkshopParts.Consolidate | workshop_items.py:31-68 | The result is None exactly when no file has a usable line. Otherwise there is one part per item named, sorted by item, with the sum of its quantities. |
| WorkshopParts.SortedParts | workshop_items.py:64-68 | The table of `item_quantities` is sorted by item, one row per key, with its quantity. |
| WorkshopParts.FilesAppend | workshop_items.py:36-43 | Reading two groups of files one after the other names an item exactly when one of the groups names it, and its total is the sum of the two groups' totals. |
| WorkshopParts.FileOrderIrrelevant | workshop_items.py:36-43 | Swapping two neighbouring groups of files anywhere in the file list names the same items with the same totals. Such swaps reach every order, so the order the files are found in does not matter. |
| WorkshopParts.CrystalsColumn | workshop_items.py:123-148 | Each part's "Crystals Needed" cell is the rendering of `compute_crystals(item, quantity)`. |
| WorkshopParts.ConsolidateWorkshopParts | workshop_items.py:31-148 | The consolidated, sorted parts each carry the crystals their quantity needs under the method map of the gathering table. |
| Text.SplitJoin | workshop_items.py:104 | Joining the pieces of a split with the separator gives the text back. |
| Text.IntStrParses | workshop_items.py:53 | `int(str(n)) == n`. |
| Text.SortStrings | workshop_items.py:64-68 | The sorted names are strictly increasing in code-point order and are exactly the given set. |

## Left out

- File and console I/O is left out:
  - glob, open and the per-file exception handler (`Error reading file`);
  - the CSV writes and the printed messages;
  - `max_columns_in_csv` and `load_csv_with_max_columns`.

  Files are given as sequences of lines, and tables as sequences of rows.
- If the recipe or gathering files fail to load, the script returns the table
  with an empty "Crystals Needed" column. `ConsolidateWorkshopParts` takes the
  recipe catalog already parsed, so this path is not modelled.
- Market data (`fetch_market_data`, `fetch_market_data_for_subparts`) is HTTP,
  JSON and sleeping. Tree printing (`print_recipe_tree`) is console output.
  `get_crafting_recipes` is a pandas rename-and-sort wrapper. None of these
  is modelled.
- `int()` and `float()` accept an optional sign and ASCII digits, and a
  decimal point for `float()`, around surrounding whitespace. Underscores,
  exponents, `inf`/`nan` and non-ASCII digits are not modelled.
- Quantities are exact reals. Floating-point rounding of
  `qty * multiplier / len(options)` is not modelled.
- pandas reads an empty cell as NaN, and the model writes it as `None`. A
  NaN product key in the recipe book, and a NaN ingredient in the gathering
  or method tables, are dropped, since no name can look them up.
- CrystalCount.IsCrystal: if the method map holds NaN for an ingredient,
  `.lower()` raises in the script, but the model counts that ingredient as
  not a crystal.
- Requirements.TopLevel: takes the totals table as (product, quantity) pairs
  already converted by `float()`. A failing conversion is not modelled.
- Requirements.FindGathering: takes the first gathering row for an
  ingredient. A pandas left merge would duplicate the requirement line for
  each row with that ingredient. The model assumes ingredients are unique in
  the gathering table. (`method_map`, a dict comprehension, keeps the last
  row; `MethodMapOf` models that.)
- Termination: the script has no cycle guard, and a cycle reachable from a
  demanded item recurses until Python's recursion limit. The model instead
  requires an acyclicity ranking (`Recipes.Ranked`) and has no error result
  for cycles.
- Recipes.Ranked: the ranking covers the whole catalog, so it also excludes
  catalogs whose only cycles no demand reaches. The script handles those:
  with a self-referencing product A and a product W made of 2 Bolt, a demand
  for W gives Bolt 2.0. The members that take `Ranked` say nothing about such
  catalogs.
- Recipes.ParseRow, Recipes.ParseRecipeBook: if the quantity cell of a
  listed pair does not parse, the script raises and the model returns None.
  The exception itself is not modelled.
- Requirements.Expander.Expand: models one call of `compute_requirements`.
  Its loop over an entry's options is the separate method `ExpandEntry`.
  `WorkshopParts.TallyLines` is the inner loop over one file's lines.
- The sorts order names by code point. That is Python's default string order,
  and pandas uses it for an object column of strings.
- A crystal key is classed as an alternative when it contains "(alt)" (line
  133), but its name is shown with every " (alt)" removed (line 134).
  `CrystalCount.TaggedShows` proves the intended behaviour only for crystal
  names without '('. A base name that itself contains "(alt)" is not covered.
